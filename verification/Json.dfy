/** A reference reader for the JSON grammar of sections 2 to 7 of RFC 8259, on bytes: a strict
    recursive-descent parser that accepts any whitespace the grammar allows. */
module Json {
  import opened Models

  datatype Value =
    | JNull
    | JBool(b: bool)
    | JNumber(number: Number)
    | JString(bytes: Bytes)
    | JArray(items: seq<Value>)
    | JObject(members: seq<(Bytes, Value)>)

  /** A number as written: sign, integer part, fraction digits and exponent. */
  datatype Number = Decimal(negative: bool, whole: nat, fraction: Bytes, exponent: int)

  /** The result of reading a prefix: what was read and what follows. */
  type Parsed<T> = Option<(T, Bytes)>

  const QUOTE: Byte := 34
  const BACKSLASH: Byte := 92
  const COMMA: Byte := 44
  const COLON: Byte := 58
  const OPEN_ARRAY: Byte := 91
  const CLOSE_ARRAY: Byte := 93
  const OPEN_OBJECT: Byte := 123
  const CLOSE_OBJECT: Byte := 125

  predicate IsSpace(b: Byte) {
    b == 32 || b == 9 || b == 10 || b == 13
  }

  function SkipSpace(s: Bytes): (r: Bytes)
    ensures |r| <= |s|
    ensures r != [] ==> !IsSpace(r[0])
  {
    if s != [] && IsSpace(s[0]) then SkipSpace(s[1..]) else s
  }

  /** `s` without the given prefix. */
  function Expect(s: Bytes, prefix: Bytes): (r: Option<Bytes>)
    ensures r.Some? ==> |r.value| == |s| - |prefix|
  {
    if prefix <= s then Some(s[|prefix|..]) else None
  }

  // ---- Numbers (section 6) ----

  predicate IsDigit(b: Byte) {
    48 <= b <= 57
  }

  /** The leading digits. */
  function Digits(s: Bytes): (r: Bytes)
    ensures |r| <= |s|
  {
    if s != [] && IsDigit(s[0]) then [s[0]] + Digits(s[1..]) else []
  }

  function DigitsValue(digits: Bytes): nat {
    if digits == [] then 0
    else
      var n, last := |digits| - 1, digits[|digits| - 1];
      10 * DigitsValue(digits[..n]) + if IsDigit(last) then last - 48 else 0
  }

  /** An optional fraction: a point and at least one digit. */
  function ParseFraction(s: Bytes): (r: Parsed<Bytes>)
    ensures r.Some? ==> |r.value.1| <= |s|
  {
    if s == [] || s[0] != 46 then Some(([], s))
    else
      var digits := Digits(s[1..]);
      if digits == [] then None else Some((digits, s[1 + |digits|..]))
  }

  /** An optional exponent. */
  function ParseExponent(s: Bytes): (r: Parsed<int>)
    ensures r.Some? ==> |r.value.1| <= |s|
  {
    if s == [] || (s[0] != 101 && s[0] != 69) then Some((0, s))
    else
      var signed := s[1..] != [] && (s[1] == 43 || s[1] == 45);
      var body := if signed then s[2..] else s[1..];
      var digits := Digits(body);
      var magnitude: int := DigitsValue(digits);
      if digits == [] then None
      else Some((if signed && s[1] == 45 then -magnitude else magnitude, body[|digits|..]))
  }

  /** The integer part has no superfluous leading zero. */
  function ParseNumber(s: Bytes): (r: Parsed<Number>)
    ensures r.Some? ==> |r.value.1| < |s|
  {
    var negative := s != [] && s[0] == 45;
    var body := if negative then s[1..] else s;
    var whole := Digits(body);
    if whole == [] || (|whole| > 1 && whole[0] == 48) then None
    else
      var fraction := ParseFraction(body[|whole|..]);
      if fraction.None? then None
      else
        var exponent := ParseExponent(fraction.value.1);
        if exponent.None? then None
        else Some((Decimal(negative, DigitsValue(whole), fraction.value.0, exponent.value.0), exponent.value.1))
  }

  // ---- Strings (section 7) ----

  function HexDigit(b: Byte): Option<nat> {
    if IsDigit(b) then Some(b - 48)
    else if 97 <= b <= 102 then Some(b - 87)
    else if 65 <= b <= 70 then Some(b - 55)
    else None
  }

  function Hex4(s: Bytes): (r: Option<nat>)
    ensures r.Some? ==> |s| >= 4 && r.value < 0x10000
  {
    if |s| < 4 then None
    else
      var a, b, c, d := HexDigit(s[0]), HexDigit(s[1]), HexDigit(s[2]), HexDigit(s[3]);
      if a.None? || b.None? || c.None? || d.None? then None
      else Some(4096 * a.value + 256 * b.value + 16 * c.value + d.value)
  }

  function Utf8(code: nat): Bytes
    requires code < 0x110000
  {
    if code < 0x80 then [code]
    else if code < 0x800 then [0xC0 + code / 64, 0x80 + code % 64]
    else if code < 0x10000 then [0xE0 + code / 4096, 0x80 + code / 64 % 64, 0x80 + code % 64]
    else [0xF0 + code / 262144, 0x80 + code / 4096 % 64, 0x80 + code / 64 % 64, 0x80 + code % 64]
  }

  /** The part of an escape after the backslash: the bytes it stands for. A surrogate must be the
      first half of a pair. */
  function ParseEscape(s: Bytes): (r: Parsed<Bytes>)
    ensures r.Some? ==> |r.value.1| < |s|
  {
    if s == [] then None
    else if s[0] == QUOTE || s[0] == BACKSLASH || s[0] == 47 then Some(([s[0]], s[1..]))
    else if s[0] == 98 then Some(([8], s[1..]))
    else if s[0] == 102 then Some(([12], s[1..]))
    else if s[0] == 110 then Some(([10], s[1..]))
    else if s[0] == 114 then Some(([13], s[1..]))
    else if s[0] == 116 then Some(([9], s[1..]))
    else if s[0] == 117 then
      var code := Hex4(s[1..]);
      if code.None? || 0xDC00 <= code.value < 0xE000 then None
      else if code.value < 0xD800 || 0xE000 <= code.value then Some((Utf8(code.value), s[5..]))
      else
        var low := if |s| >= 7 && s[5] == BACKSLASH && s[6] == 117 then Hex4(s[7..]) else None;
        if low.None? || !(0xDC00 <= low.value < 0xE000) then None
        else Some((Utf8(0x10000 + 0x400 * (code.value - 0xD800) + (low.value - 0xDC00)), s[11..]))
    else None
  }

  /** The bytes of a string up to its closing quote; control bytes must be escaped. */
  function ParseChars(s: Bytes): (r: Parsed<Bytes>)
    ensures r.Some? ==> |r.value.1| < |s|
  {
    if s == [] || s[0] < 0x20 then None
    else if s[0] == QUOTE then Some(([], s[1..]))
    else
      var first := if s[0] == BACKSLASH then ParseEscape(s[1..]) else Some(([s[0]], s[1..]));
      if first.None? then None
      else
        var rest := ParseChars(first.value.1);
        if rest.None? then None else Some((first.value.0 + rest.value.0, rest.value.1))
  }

  function ParseString(s: Bytes): (r: Parsed<Bytes>)
    ensures r.Some? ==> |r.value.1| < |s|
  {
    if s == [] || s[0] != QUOTE then None else ParseChars(s[1..])
  }

  // ---- Values (sections 2 to 5) ----

  /** "null", "true", "false" */
  const NULL: Bytes := [110, 117, 108, 108]
  const TRUE: Bytes := [116, 114, 117, 101]
  const FALSE: Bytes := [102, 97, 108, 115, 101]

  function ParseLiteral(s: Bytes, word: Bytes, v: Value): (r: Parsed<Value>)
    requires word != []
    ensures r.Some? ==> |r.value.1| < |s|
  {
    var rest := Expect(s, word);
    if rest.None? then None else Some((v, rest.value))
  }

  /** Reads one value at the start of `s`, which begins without whitespace. */
  function ParseValue(s: Bytes): (r: Parsed<Value>)
    ensures r.Some? ==> |r.value.1| < |s|
    decreases |s|, 0
  {
    if s == [] then None
    else if s[0] == 110 then ParseLiteral(s, NULL, JNull)
    else if s[0] == 116 then ParseLiteral(s, TRUE, JBool(true))
    else if s[0] == 102 then ParseLiteral(s, FALSE, JBool(false))
    else if s[0] == QUOTE then
      var r := ParseString(s);
      if r.None? then None else Some((JString(r.value.0), r.value.1))
    else if s[0] == OPEN_ARRAY then
      var body := SkipSpace(s[1..]);
      if body != [] && body[0] == CLOSE_ARRAY then Some((JArray([]), body[1..]))
      else
        var r := ParseItems(body);
        if r.None? then None else Some((JArray(r.value.0), r.value.1))
    else if s[0] == OPEN_OBJECT then
      var body := SkipSpace(s[1..]);
      if body != [] && body[0] == CLOSE_OBJECT then Some((JObject([]), body[1..]))
      else
        var r := ParseMembers(body);
        if r.None? then None else Some((JObject(r.value.0), r.value.1))
    else
      var r := ParseNumber(s);
      if r.None? then None else Some((JNumber(r.value.0), r.value.1))
  }

  /** One or more items and the closing bracket. */
  function ParseItems(s: Bytes): (r: Parsed<seq<Value>>)
    ensures r.Some? ==> |r.value.1| < |s|
    decreases |s|, 1
  {
    var first := ParseValue(s);
    if first.None? then None
    else
      var after := SkipSpace(first.value.1);
      if after == [] then None
      else if after[0] == CLOSE_ARRAY then Some(([first.value.0], after[1..]))
      else if after[0] == COMMA then
        var rest := ParseItems(SkipSpace(after[1..]));
        if rest.None? then None else Some(([first.value.0] + rest.value.0, rest.value.1))
      else None
  }

  function ParseMember(s: Bytes): (r: Parsed<(Bytes, Value)>)
    ensures r.Some? ==> |r.value.1| < |s|
    decreases |s|, 1
  {
    var key := ParseString(s);
    if key.None? then None
    else
      var after := SkipSpace(key.value.1);
      if after == [] || after[0] != COLON then None
      else
        var v := ParseValue(SkipSpace(after[1..]));
        if v.None? then None else Some(((key.value.0, v.value.0), v.value.1))
  }

  /** One or more members and the closing brace. */
  function ParseMembers(s: Bytes): (r: Parsed<seq<(Bytes, Value)>>)
    ensures r.Some? ==> |r.value.1| < |s|
    decreases |s|, 2
  {
    var first := ParseMember(s);
    if first.None? then None
    else
      var after := SkipSpace(first.value.1);
      if after == [] then None
      else if after[0] == CLOSE_OBJECT then Some(([first.value.0], after[1..]))
      else if after[0] == COMMA then
        var rest := ParseMembers(SkipSpace(after[1..]));
        if rest.None? then None else Some(([first.value.0] + rest.value.0, rest.value.1))
      else None
  }

  /** A whole text: one value with optional whitespace around it. */
  function Parse(s: Bytes): Option<Value> {
    var r := ParseValue(SkipSpace(s));
    if r.Some? && SkipSpace(r.value.1) == [] then Some(r.value.0) else None
  }
}

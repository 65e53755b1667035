/** The JSON values of the program and the two directions of their text form, as functions. A `char` stands for
    one byte of a std::string. Numbers are exact reals in place of doubles. */
module Json {
  import opened Decimal
  import opened Powers
  import opened Wrappers

  datatype Value =
    | Null
    | Bool(b: bool)
    | Num(n: real)
    | Str(s: string)
    | Arr(items: seq<Value>)
    | Obj(members: seq<Member>)

  datatype Member = Member(key: string, value: Value)

  // ---------------------------------------------------------------- printing

  const INTEGER_LIMIT: real := 9007199254740992.0  // 2^53

  function HexDigit(d: nat): char
    requires d < 16
  {
    if d < 10 then DigitChar(d) else ('a' as int + d - 10) as char
  }

  function Escape(c: char): string {
    if c == '"' then "\\\""
    else if c == '\\' then "\\\\"
    else if c == '\n' then "\\n"
    else if c == '\r' then "\\r"
    else if c == '\t' then "\\t"
    else if c == '\U{0008}' then "\\b"
    else if c == '\U{000C}' then "\\f"
    else if c < ' ' then "\\u00" + [HexDigit(c as int / 16), HexDigit(c as int % 16)]
    else [c]
  }

  function EscapeAll(s: string): string {
    if s == "" then "" else Escape(s[0]) + EscapeAll(s[1..])
  }

  function WriteString(s: string): string {
    "\"" + EscapeAll(s) + "\""
  }

  predicate PrintsExactly(n: real) {
    n.Floor as real == n && -INTEGER_LIMIT < n < INTEGER_LIMIT
  }

  /** `general` is printf's "%.10g". */
  function WriteNumber(n: real, general: real -> string): string {
    if PrintsExactly(n) then IntToString(n.Floor) else general(n)
  }

  function Spaces(n: nat): string {
    if n == 0 then "" else " " + Spaces(n - 1)
  }

  function NewLine(pretty: bool, indent: nat): string {
    if pretty then "\n" + Spaces(2 * indent) else ""
  }

  predicate IsContainer(v: Value) { v.Arr? || v.Obj? }

  /** Short arrays of scalars stay on one line. */
  predicate IsFlat(items: seq<Value>) {
    |items| <= 16 && forall e :: e in items ==> !IsContainer(e)
  }

  function Write(v: Value, pretty: bool, indent: nat, general: real -> string): string
    decreases v, 0
  {
    match v
    case Null => "null"
    case Bool(b) => if b then "true" else "false"
    case Num(n) => WriteNumber(n, general)
    case Str(s) => WriteString(s)
    case Arr(items) =>
      if items == [] then "[]"
      else
        var flat := IsFlat(items);
        "[" + WriteItems(items, flat, pretty, indent, general)
        + (if flat then "" else NewLine(pretty, indent)) + "]"
    case Obj(members) =>
      if members == [] then "{}"
      else "{" + WriteMembers(members, pretty, indent, general) + NewLine(pretty, indent) + "}"
  }

  function WriteItems(items: seq<Value>, flat: bool, pretty: bool, indent: nat, general: real -> string): string
    requires items != []
    decreases items, 0
  {
    var first := (if flat then "" else NewLine(pretty, indent + 1)) + Write(items[0], pretty, indent + 1, general);
    if |items| == 1 then first
    else first + (if flat && pretty then ", " else ",") + WriteItems(items[1..], flat, pretty, indent, general)
  }

  function WriteMembers(members: seq<Member>, pretty: bool, indent: nat, general: real -> string): string
    requires members != []
    decreases members, 0
  {
    var first := NewLine(pretty, indent + 1) + WriteString(members[0].key) + (if pretty then ": " else ":")
                 + Write(members[0].value, pretty, indent + 1, general);
    if |members| == 1 then first
    else first + "," + WriteMembers(members[1..], pretty, indent, general)
  }

  function Stringify(v: Value, pretty: bool, general: real -> string): string {
    Write(v, pretty, 0, general) + (if pretty then "\n" else "")
  }

  // ---------------------------------------------------------------- parsing

  /** What one production leaves behind: its value, or the first error, and the text not yet consumed. */
  datatype Parsed<T> = Ok(value: T, rest: string) | Fail(error: string, rest: string)

  const MAX_DEPTH: nat := 64

  predicate IsSpace(c: char) { c == ' ' || c == '\t' || c == '\n' || c == '\r' }

  function SkipLine(s: string): (r: string)
    ensures |r| <= |s|
  {
    if s == "" || s[0] == '\n' then s else SkipLine(s[1..])
  }

  function SkipWs(s: string): (r: string)
    ensures |r| <= |s|
    decreases |s|
  {
    if s == "" then s
    else if IsSpace(s[0]) then SkipWs(s[1..])
    else if s[0] == '/' && |s| > 1 && s[1] == '/' then SkipWs(SkipLine(s[1..]))
    else s
  }

  function Literal(s: string, word: string, v: Value): (r: Parsed<Value>)
    requires word != ""
    ensures if r.Ok? then |r.rest| < |s| else |r.rest| <= |s|
  {
    if word <= s then Ok(v, s[|word|..]) else Fail("invalid literal", s)
  }

  predicate IsNumberChar(s: string, i: nat)
    requires i < |s|
  {
    IsDigit(s[i]) || s[i] == '.' || s[i] == 'e' || s[i] == 'E'
    || ((s[i] == '-' || s[i] == '+') && i > 0 && (s[i - 1] == 'e' || s[i - 1] == 'E'))
  }

  function NumberEnd(s: string, i: nat): (r: nat)
    requires i <= |s|
    ensures i <= r <= |s|
    decreases |s| - i
  {
    if i < |s| && IsNumberChar(s, i) then NumberEnd(s, i + 1) else i
  }

  predicate HasDigit(s: string, i: nat, j: nat)
    requires j <= |s|
  {
    exists k :: i <= k < j && IsDigit(s[k])
  }

  function SignLength(s: string): nat {
    if s != "" && (s[0] == '-' || s[0] == '+') then 1 else 0
  }

  function ParseNumber(s: string): (r: Parsed<Value>)
    ensures if r.Ok? then |r.rest| < |s| else |r.rest| <= |s|
  {
    SignFits(s);
    var n := NumberEnd(s, SignLength(s));
    if !HasDigit(s, SignLength(s), n) then Fail("invalid number", s[n..])
    else
      match Strtod(s[..n])
      case None => Fail("invalid number", s[n..])
      case Some(v) => if IsFinite(v) then Ok(Num(v), s[n..]) else Fail("invalid number", s[n..])
  }

  lemma SignFits(s: string)
    ensures SignLength(s) <= |s|
  {
  }

  /** Where the digits that start at i end. */
  function DigitsEnd(s: string, i: nat): (r: nat)
    requires i <= |s|
    ensures i <= r <= |s| && AllDigits(s[i..r])
    decreases |s| - i
  {
    if i < |s| && IsDigit(s[i]) then
      var r := DigitsEnd(s, i + 1);
      assert s[i..r] == [s[i]] + s[i + 1..r];
      r
    else i
  }

  function Pow10(n: nat): (r: nat)
    ensures r >= 1
  {
    if n == 0 then 1 else 10 * Pow10(n - 1)
  }

  function Scale(mantissa: int, exponent: int): real {
    if exponent >= 0 then (mantissa * Pow10(exponent)) as real else mantissa as real / Pow10(-exponent) as real
  }

  /** The exponent part that starts at i, or 0 when there is none or it has no digits. */
  function ExponentAt(s: string, i: nat): int
    requires i <= |s|
  {
    if i < |s| && (s[i] == 'e' || s[i] == 'E') then
      var j := i + 1 + SignLength(s[i + 1..]);
      var k := DigitsEnd(s, j);
      if k == j then 0
      else if s[i + 1] == '-' then 0 - DigitsValue(s[j..k]) else DigitsValue(s[j..k])
    else 0
  }

  /** strtod on a token of sign, digits, '.', 'e' and 'E': the value of the longest prefix that is a number. */
  function Strtod(s: string): Option<real> {
    SignFits(s);
    var i := SignLength(s);
    var j := DigitsEnd(s, i);
    var k := if j < |s| && s[j] == '.' then DigitsEnd(s, j + 1) else j;
    var fraction := if k > j then s[j + 1..k] else "";
    if j == i && fraction == "" then None
    else
      var magnitude := DigitsValue(s[i..j] + fraction);
      var mantissa := if i == 1 && s[0] == '-' then 0 - magnitude else magnitude;
      Some(Scale(mantissa, ExponentAt(s, k) - |fraction|))
  }

  const MAX_EXPONENT: nat := 1024
  const HALF_ULP_EXPONENT: nat := 970

  /** Rounds to a finite double. */
  predicate IsFinite(v: real) {
    var limit := (Pow2(MAX_EXPONENT) - Pow2(HALF_ULP_EXPONENT)) as real;
    -limit < v < limit
  }

  function HexValue(c: char): (r: Option<nat>)
    ensures r.Some? ==> r.value < 16
  {
    if IsDigit(c) then Some(DigitValue(c))
    else if 'a' <= c <= 'f' then Some(c as int - 'a' as int + 10)
    else if 'A' <= c <= 'F' then Some(c as int - 'A' as int + 10)
    else None
  }

  /** n more hex digits, on top of the value v read so far. */
  function HexDigits(s: string, n: nat, v: nat): (r: Parsed<nat>)
    requires n <= |s| && HexRoom(n, v)
    ensures |r.rest| <= |s| && (r.Ok? ==> r.value < 0x1_0000)
    decreases n
  {
    if n == 0 then Ok(v, s)
    else
      match HexValue(s[0])
      case None => Fail("bad hex digit", s[1..])
      case Some(d) => HexDigits(s[1..], n - 1, 16 * v + d)
  }

  /** The value of the first 4 - n digits of four. */
  predicate HexRoom(n: nat, v: nat) {
    match n
    case 0 => v < 0x1_0000
    case 1 => v < 0x1000
    case 2 => v < 0x100
    case 3 => v < 0x10
    case 4 => v == 0
    case _ => false
  }

  function Hex4(s: string): (r: Parsed<nat>)
    ensures |r.rest| <= |s|
    ensures r.Ok? ==> r.value < 0x1_0000
  {
    if |s| < 4 then Fail("bad \\u escape", s)
    else HexDigits(s, 4, 0)
  }

  function ByteChar(b: nat): char
    requires b < 256
  {
    b as char
  }

  function Utf8(cp: nat): string
    requires cp < 0x11_0000
  {
    if cp < 0x80 then [ByteChar(cp)]
    else if cp < 0x800 then [ByteChar(0xC0 + cp / 64), ByteChar(0x80 + cp % 64)]
    else if cp < 0x1_0000 then
      [ByteChar(0xE0 + cp / 4096), ByteChar(0x80 + cp / 64 % 64), ByteChar(0x80 + cp % 64)]
    else
      [ByteChar(0xF0 + cp / 262144), ByteChar(0x80 + cp / 4096 % 64),
       ByteChar(0x80 + cp / 64 % 64), ByteChar(0x80 + cp % 64)]
  }

  function SimpleEscape(e: char): Option<char> {
    if e == '"' || e == '\\' || e == '/' then Some(e)
    else if e == 'b' then Some('\U{0008}')
    else if e == 'f' then Some('\U{000C}')
    else if e == 'n' then Some('\n')
    else if e == 'r' then Some('\r')
    else if e == 't' then Some('\t')
    else None
  }

  /** The character of a \u escape whose four digits start at s, with its low surrogate if one follows. */
  function UnicodeEscape(s: string): (r: Parsed<string>)
    ensures |r.rest| <= |s|
  {
    match Hex4(s)
    case Fail(e, rest) => Fail(e, rest)
    case Ok(cp, rest) =>
      if 0xD800 <= cp <= 0xDBFF && |rest| >= 6 && rest[0] == '\\' && rest[1] == 'u' then
        match Hex4(rest[2..])
        case Fail(e, rest2) => Fail(e, rest2)
        case Ok(lo, rest2) =>
          if 0xDC00 <= lo <= 0xDFFF then Ok(Utf8(0x1_0000 + (cp - 0xD800) * 1024 + (lo - 0xDC00)), rest2)
          else Ok(Utf8(cp), rest2)
      else Ok(Utf8(cp), rest)
  }

  /** The rest of a string after its opening quote, on top of what was read so far. */
  function StringBody(s: string, read: string): (r: Parsed<string>)
    ensures if r.Ok? then |r.rest| < |s| else |r.rest| <= |s|
    decreases |s|
  {
    if s == "" then Fail("unterminated string", s)
    else if s[0] == '"' then Ok(read, s[1..])
    else if s[0] == '\\' then
      if |s| == 1 then Fail("unterminated string", s[1..])
      else if s[1] == 'u' then
        match UnicodeEscape(s[2..])
        case Fail(e, rest) => Fail(e, rest)
        case Ok(text, rest) => StringBody(rest, read + text)
      else
        match SimpleEscape(s[1])
        case None => Fail("bad escape", s[2..])
        case Some(c) => StringBody(s[2..], read + [c])
    else StringBody(s[1..], read + [s[0]])
  }

  function ParseValue(s: string, depth: nat): (r: Parsed<Value>)
    ensures if r.Ok? then |r.rest| < |s| else |r.rest| <= |s|
    decreases |s|, 0
  {
    if depth > MAX_DEPTH then Fail("nesting too deep", s)
    else if s == "" then Fail("unexpected end", s)
    else if s[0] == '{' then ParseObject(s[1..], depth)
    else if s[0] == '[' then ParseArray(s[1..], depth)
    else if s[0] == '"' then
      match StringBody(s[1..], "")
      case Fail(e, rest) => Fail(e, rest)
      case Ok(text, rest) => Ok(Str(text), rest)
    else if s[0] == 't' then Literal(s, "true", Bool(true))
    else if s[0] == 'f' then Literal(s, "false", Bool(false))
    else if s[0] == 'n' then Literal(s, "null", Null)
    else ParseNumber(s)
  }

  function ParseArray(s: string, depth: nat): (r: Parsed<Value>)
    ensures |r.rest| <= |s|
    decreases |s|, 2
  {
    var s1 := SkipWs(s);
    if s1 != "" && s1[0] == ']' then Ok(Arr([]), s1[1..]) else ParseItems(s1, [], depth)
  }

  /** The loop of parseArray. */
  function ParseItems(s: string, read: seq<Value>, depth: nat): (r: Parsed<Value>)
    ensures |r.rest| <= |s|
    decreases |s|, 1
  {
    match ParseValue(SkipWs(s), depth + 1)
    case Fail(e, rest) => Fail(e, rest)
    case Ok(v, rest) =>
      var s1 := SkipWs(rest);
      if s1 == "" then Fail("unterminated array", s1)
      else if s1[0] == ',' then
        var s2 := SkipWs(s1[1..]);
        if s2 != "" && s2[0] == ']' then Ok(Arr(read + [v]), s2[1..])
        else ParseItems(s2, read + [v], depth)
      else if s1[0] == ']' then Ok(Arr(read + [v]), s1[1..])
      else Fail("expected , or ]", s1)
  }

  function ParseObject(s: string, depth: nat): (r: Parsed<Value>)
    ensures |r.rest| <= |s|
    decreases |s|, 2
  {
    var s1 := SkipWs(s);
    if s1 != "" && s1[0] == '}' then Ok(Obj([]), s1[1..]) else ParseMembers(s1, [], depth)
  }

  /** A key and the colon after it. */
  function ParseKey(s: string): (r: Parsed<string>)
    ensures if r.Ok? then |r.rest| < |s| else |r.rest| <= |s|
  {
    if s == "" || s[0] != '"' then Fail("expected key", s)
    else
      match StringBody(s[1..], "")
      case Fail(e, rest) => Fail(e, rest)
      case Ok(key, rest) =>
        var s1 := SkipWs(rest);
        if s1 == "" || s1[0] != ':' then Fail("expected :", s1) else Ok(key, s1[1..])
  }

  /** The loop of parseObject. */
  function ParseMembers(s: string, read: seq<Member>, depth: nat): (r: Parsed<Value>)
    ensures |r.rest| <= |s|
    decreases |s|, 1
  {
    match ParseKey(SkipWs(s))
    case Fail(e, rest) => Fail(e, rest)
    case Ok(key, s0) =>
      match ParseValue(SkipWs(s0), depth + 1)
      case Fail(e, rest) => Fail(e, rest)
      case Ok(v, rest) =>
        var s1 := SkipWs(rest);
        if s1 == "" then Fail("unterminated object", s1)
        else if s1[0] == ',' then
          var s2 := SkipWs(s1[1..]);
          if s2 != "" && s2[0] == '}' then Ok(Obj(read + [Member(key, v)]), s2[1..])
          else ParseMembers(s2, read + [Member(key, v)], depth)
        else if s1[0] == '}' then Ok(Obj(read + [Member(key, v)]), s1[1..])
        else Fail("expected , or }", s1)
  }

  /** A whole document: one value with nothing but blanks and comments around it. */
  function ParseDocument(s: string): Parsed<Value> {
    match ParseValue(SkipWs(s), 0)
    case Fail(e, rest) => Fail(e, rest)
    case Ok(v, rest) =>
      var s1 := SkipWs(rest);
      if s1 == "" then Ok(v, "") else Fail("trailing characters", s1)
  }

  function StripBom(s: string): string {
    if |s| >= 3 && s[0] == ByteChar(0xEF) && s[1] == ByteChar(0xBB) && s[2] == ByteChar(0xBF) then s[3..] else s
  }

  function Parse(s: string): Parsed<Value> {
    ParseDocument(StripBom(s))
  }
}

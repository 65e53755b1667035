/** The parser undoes the printer, pretty or compact, for every value that is at most 64 containers deep and
    whose numbers are integers below 2^53. */
module JsonRoundTrip {
  import opened Decimal
  import opened Json
  import opened Powers
  import opened Wrappers

  // ---------------------------------------------------------------- which values

  /** All numbers are integers that the printer writes exactly. */
  predicate Integral(v: Value)
    decreases v
  {
    match v
    case Num(n) => PrintsExactly(n)
    case Arr(items) => forall e :: e in items ==> Integral(e)
    case Obj(members) => forall m :: m in members ==> Integral(m.value)
    case _ => true
  }

  /** The largest number of containers around any node below v. */
  function Height(v: Value): nat
    decreases v, 0
  {
    match v
    case Arr(items) => if items == [] then 0 else 1 + ItemsHeight(items)
    case Obj(members) => if members == [] then 0 else 1 + MembersHeight(members)
    case _ => 0
  }

  function ItemsHeight(items: seq<Value>): nat
    requires items != []
    decreases items, 0
  {
    if |items| == 1 then Height(items[0]) else Max(Height(items[0]), ItemsHeight(items[1..]))
  }

  function MembersHeight(members: seq<Member>): nat
    requires members != []
    decreases members, 0
  {
    if |members| == 1 then Height(members[0].value) else Max(Height(members[0].value), MembersHeight(members[1..]))
  }

  function Max(a: nat, b: nat): nat { if a >= b then a else b }

  // ---------------------------------------------------------------- blanks

  lemma {:induction false} SkipSpaces(n: nat, s: string)
    ensures SkipWs(Spaces(n) + s) == SkipWs(s)
  {
    if n == 0 {
      assert Spaces(n) + s == s;
    } else {
      assert (Spaces(n) + s)[1..] == Spaces(n - 1) + s;
      SkipSpaces(n - 1, s);
    }
  }

  lemma SkipNewLine(pretty: bool, indent: nat, s: string)
    ensures SkipWs(NewLine(pretty, indent) + s) == SkipWs(s)
  {
    if pretty {
      assert (NewLine(pretty, indent) + s)[1..] == Spaces(2 * indent) + s;
      SkipSpaces(2 * indent, s);
    } else {
      assert NewLine(pretty, indent) + s == s;
    }
  }

  /** Text that begins with something other than a blank or a comment. */
  predicate Solid(s: string) { s != "" && !IsSpace(s[0]) && s[0] != '/' }

  lemma {:induction false} SkipIsIdempotent(s: string)
    ensures SkipWs(SkipWs(s)) == SkipWs(s)
    decreases |s|
  {
    if s != "" {
      if IsSpace(s[0]) {
        SkipIsIdempotent(s[1..]);
      } else if s[0] == '/' && |s| > 1 && s[1] == '/' {
        SkipIsIdempotent(SkipLine(s[1..]));
      }
    }
  }

  // ---------------------------------------------------------------- strings

  lemma HexRoundTrip(d: nat)
    requires d < 16
    ensures HexValue(HexDigit(d)) == Some(d)
  {
  }

  predicate IsControl(c: char) {
    c < ' ' && c != '\n' && c != '\r' && c != '\t' && c != '\U{0008}' && c != '\U{000C}'
  }

  lemma ReadSimple(c: char, s: string, read: string)
    requires !IsControl(c)
    ensures StringBody(Escape(c) + s, read) == StringBody(s, read + [c])
  {
    hide StringBody;
    if |Escape(c)| == 2 {
      ReadPair(Escape(c)[1], c, s, read);
      assert Escape(c) == ['\\', Escape(c)[1]];
    } else {
      ReadPlain(c, s, read);
    }
  }

  lemma ReadPlain(c: char, s: string, read: string)
    requires c != '"' && c != '\\'
    ensures StringBody([c] + s, read) == StringBody(s, read + [c])
  {
    hide SimpleEscape, UnicodeEscape;
    assert ([c] + s)[1..] == s;
  }

  lemma ReadPair(e: char, c: char, s: string, read: string)
    requires e != 'u' && SimpleEscape(e) == Some(c)
    ensures StringBody(['\\', e] + s, read) == StringBody(s, read + [c])
  {
    assert (['\\', e] + s)[2..] == s;
  }

  /** One escaped character is read back as that character. */
  lemma ReadEscape(c: char, s: string, read: string)
    ensures StringBody(Escape(c) + s, read) == StringBody(s, read + [c])
  {
    if IsControl(c) {
      var hi, lo := c as int / 16, c as int % 16;
      var digits := ['0', '0', HexDigit(hi), HexDigit(lo)] + s;
      ReadControl(hi, lo, s);
      assert Escape(c) + s == ['\\', 'u'] + digits;
      ReadUnicode(digits, [ByteChar(16 * hi + lo)], s, read);
      assert [ByteChar(16 * hi + lo)] == [c];
    } else {
      ReadSimple(c, s, read);
    }
  }

  lemma ReadUnicode(digits: string, text: string, s: string, read: string)
    requires UnicodeEscape(digits) == Ok(text, s)
    ensures StringBody(['\\', 'u'] + digits, read) == StringBody(s, read + text)
  {
    assert (['\\', 'u'] + digits)[2..] == digits;
  }

  lemma ReadControl(hi: nat, lo: nat, s: string)
    requires hi < 2 && lo < 16
    ensures UnicodeEscape(['0', '0', HexDigit(hi), HexDigit(lo)] + s) == Ok([ByteChar(16 * hi + lo)], s)
  {
    var t := ['0', '0', HexDigit(hi), HexDigit(lo)] + s;
    HexRoundTrip(hi);
    HexRoundTrip(lo);
    assert t[1..] == ['0', HexDigit(hi), HexDigit(lo)] + s;
    assert t[1..][1..] == [HexDigit(hi), HexDigit(lo)] + s;
    assert t[1..][1..][1..] == [HexDigit(lo)] + s;
    assert t[1..][1..][1..][1..] == s;
    assert HexDigits(s, 0, 16 * hi + lo) == Ok(16 * hi + lo, s);
    assert HexDigits(t[1..][1..][1..], 1, hi) == Ok(16 * hi + lo, s);
    assert HexDigits(t[1..][1..], 2, 0) == Ok(16 * hi + lo, s);
    assert HexDigits(t[1..], 3, 0) == Ok(16 * hi + lo, s);
    assert HexDigits(t, 4, 0) == Ok(16 * hi + lo, s);
  }

  lemma {:induction false} ReadEscaped(text: string, s: string, read: string)
    ensures StringBody(EscapeAll(text) + "\"" + s, read) == Ok(read + text, s)
    decreases |text|
  {
    hide Escape, EscapeAll, StringBody;
    EscapeFirst(text);
    if text == "" {
      assert EscapeAll(text) + "\"" + s == "\"" + s;
      ReadQuote(s, read);
      assert read + text == read;
    } else {
      var tail := EscapeAll(text[1..]) + "\"" + s;
      assert EscapeAll(text) + "\"" + s == Escape(text[0]) + tail;
      ReadEscape(text[0], tail, read);
      ReadEscaped(text[1..], s, read + [text[0]]);
      assert read + [text[0]] + text[1..] == read + text;
    }
  }

  lemma EscapeFirst(text: string)
    ensures EscapeAll(text) == if text == "" then "" else Escape(text[0]) + EscapeAll(text[1..])
  {
    hide Escape;
  }

  lemma ReadQuote(s: string, read: string)
    ensures StringBody("\"" + s, read) == Ok(read, s)
  {
    assert ("\"" + s)[1..] == s;
  }

  /** Every string survives: any bytes, quotes and control characters included. */
  lemma ReadString(text: string, s: string)
    ensures (WriteString(text) + s)[0] == '"'
    ensures StringBody((WriteString(text) + s)[1..], "") == Ok(text, s)
  {
    assert (WriteString(text) + s)[1..] == EscapeAll(text) + "\"" + s;
    ReadEscaped(text, s, "");
    assert "" + text == text;
  }

  // ---------------------------------------------------------------- numbers

  /** What may follow a number in printed text. */
  predicate Stops(s: string) {
    s == "" || s[0] == ',' || s[0] == ']' || s[0] == '}' || s[0] == '\n'
  }

  lemma {:induction false} NumberEndAtDigits(digits: string, s: string, i: nat, sign: string)
    requires AllDigits(digits) && Stops(s) && i <= |digits|
    ensures NumberEnd(sign + digits + s, |sign| + i) == |sign| + |digits|
    decreases |digits| - i
  {
    var t := sign + digits + s;
    if i < |digits| {
      assert t[|sign| + i] == digits[i];
      NumberEndAtDigits(digits, s, i + 1, sign);
    } else if s != "" {
      assert t[|sign| + i] == s[0];
    }
  }

  lemma {:induction false} DigitsEndAtEnd(sign: string, digits: string, i: nat)
    requires AllDigits(digits) && i <= |digits|
    ensures DigitsEnd(sign + digits, |sign| + i) == |sign| + |digits|
    decreases |digits| - i
  {
    if i < |digits| {
      assert (sign + digits)[|sign| + i] == digits[i];
      DigitsEndAtEnd(sign, digits, i + 1);
    }
  }

  lemma IntegerShape(n: int) returns (sign: string, digits: string)
    ensures sign == (if n < 0 then "-" else "") && digits != "" && AllDigits(digits)
    ensures DigitsValue(digits) == (if n < 0 then -n else n)
    ensures IntToString(n) == sign + digits && SignLength(sign + digits) == |sign|
  {
    var m: nat := if n < 0 then -n else n;
    sign := if n < 0 then "-" else "";
    digits := NatToString(m);
    ValueOfNat(m);
    SignedDigits(sign, digits);
    hide NatToString, DigitsValue, SignLength;
  }

  lemma SignedDigits(sign: string, digits: string)
    requires (sign == "" || sign == "-") && digits != "" && AllDigits(digits)
    ensures SignLength(sign + digits) == |sign|
  {
    assert (sign + digits)[|sign|] == digits[0];
  }

  lemma StrtodOfDigits(t: string, i: nat, digits: string)
    requires i == SignLength(t) && i < |t| && t[i..] == digits && AllDigits(digits) && DigitsEnd(t, i) == |t|
    ensures Strtod(t) == Some((if i == 1 && t[0] == '-' then 0 - DigitsValue(digits) else DigitsValue(digits)) as real)
  {
    hide DigitsValue, AllDigits, DigitsEnd;
    assert t[i..|t|] + "" == digits;
    assert Pow10(0) == 1;
    assert ExponentAt(t, |t|) == 0;
  }

  lemma DropSign(sign: string, digits: string)
    ensures (sign + digits)[|sign|..] == digits && (sign != "" ==> (sign + digits)[0] == sign[0])
  {
  }

  lemma StrtodOfInteger(n: int)
    ensures Strtod(IntToString(n)) == Some(n as real)
  {
    hide DigitsValue, AllDigits, DigitsEnd, SignLength, Strtod, IntToString;
    var sign, digits := IntegerShape(n);
    DropSign(sign, digits);
    DigitsEndAtEnd(sign, digits, 0);
    StrtodOfDigits(sign + digits, |sign|, digits);
  }

  const MANTISSA_BITS: nat := 53

  lemma IntegerLimitIsPow2()
    ensures Pow2(MANTISSA_BITS) as real == INTEGER_LIMIT
  {
    var ten, twenty, forty, three := 10, 20, 40, 3;
    Pow2Ten();
    Pow2Add(ten, ten);
    Pow2Add(twenty, twenty);
    Pow2Add(forty, ten);
    Pow2Add(forty + ten, three);
    assert Pow2(three) == 8;
  }

  lemma SmallIsFinite(v: real)
    requires -INTEGER_LIMIT < v < INTEGER_LIMIT
    ensures IsFinite(v)
  {
    IntegerLimitIsPow2();
    Pow2Gap(MAX_EXPONENT, HALF_ULP_EXPONENT, MANTISSA_BITS);
  }

  lemma ReadInteger(n: real, s: string, general: real -> string)
    requires PrintsExactly(n) && Stops(s)
    ensures ParseNumber(WriteNumber(n, general) + s) == Ok(Num(n), s)
  {
    var k := n.Floor;
    var sign, digits := IntegerShape(k);
    var t := sign + digits + s;
    SignStays(sign, digits, s);
    NumberEndAtDigits(digits, s, 0, sign);
    StrtodOfInteger(k);
    SmallIsFinite(n);
    hide IntToString, NumberEnd, Strtod, IsFinite, DigitsValue, Stops;
    assert t[..|sign| + |digits|] == IntToString(k);
    assert t[|sign| + |digits|..] == s;
    assert t[|sign|] == digits[0] && IsDigit(digits[0]);
  }

  lemma SignStays(sign: string, digits: string, s: string)
    requires digits != "" && SignLength(sign + digits) == |sign|
    ensures SignLength(sign + digits + s) == |sign|
  {
    assert (sign + digits + s)[0] == (sign + digits)[0];
  }

  // ---------------------------------------------------------------- values

  /** Printed values begin with a character that no blank, bracket or comma can be mistaken for. */
  lemma WriteHead(v: Value, pretty: bool, indent: nat, general: real -> string, s: string)
    requires Integral(v)
    ensures var t := Write(v, pretty, indent, general) + s;
            Solid(t) && t[0] != ']' && t[0] != '}' && t[0] != ',' && t[0] != ByteChar(0xEF)
  {
    if v.Num? { NumberHead(v.n, s, general); }
  }

  /** What parsing a printed value must yield: the value, or the depth error when it is nested too deep. */
  predicate Reads(r: Parsed<Value>, fits: bool, v: Value, s: string) {
    if fits then r == Ok(v, s) else r.Fail? && r.error == "nesting too deep"
  }

  lemma ReadLiteral(word: string, v: Value, depth: nat, s: string)
    requires || (word == "null" && v == Null)
             || (word == "true" && v == Bool(true))
             || (word == "false" && v == Bool(false))
    requires depth <= MAX_DEPTH
    ensures ParseValue(word + s, depth) == Ok(v, s)
  {
    assert word <= word + s && (word + s)[|word|..] == s;
    assert (word + s)[0] == word[0];
  }

  lemma NumberHead(n: real, s: string, general: real -> string)
    requires PrintsExactly(n)
    ensures var t := WriteNumber(n, general) + s; t != "" && (t[0] == '-' || IsDigit(t[0]))
  {
    var sign, digits := IntegerShape(n.Floor);
    assert (sign + digits)[|sign|] == digits[0];
  }

  lemma DispatchNumber(t: string, depth: nat)
    requires t != "" && (t[0] == '-' || IsDigit(t[0])) && depth <= MAX_DEPTH
    ensures ParseValue(t, depth) == ParseNumber(t)
  {
    hide ParseNumber, ParseArray, ParseObject, StringBody, Literal;
  }

  lemma ReadNumberValue(n: real, depth: nat, s: string, general: real -> string)
    requires PrintsExactly(n) && Stops(s) && depth <= MAX_DEPTH
    ensures ParseValue(WriteNumber(n, general) + s, depth) == Ok(Num(n), s)
  {
    ReadInteger(n, s, general);
    NumberHead(n, s, general);
    DispatchNumber(WriteNumber(n, general) + s, depth);
    hide ParseValue, WriteNumber, ParseNumber, Stops;
  }

  lemma ReadStringValue(text: string, depth: nat, s: string)
    requires depth <= MAX_DEPTH
    ensures ParseValue(WriteString(text) + s, depth) == Ok(Str(text), s)
  {
    ReadString(text, s);
  }

  lemma {:induction false} ReadValue(v: Value, depth: nat, s: string,
                                     pretty: bool, indent: nat, general: real -> string)
    requires Integral(v) && Stops(s)
    ensures Reads(ParseValue(Write(v, pretty, indent, general) + s, depth), depth + Height(v) <= MAX_DEPTH, v, s)
    decreases v, 1
  {
    if depth > MAX_DEPTH { return; }
    match v
    case Null => ReadLiteral("null", v, depth, s);
    case Bool(b) => ReadLiteral(if b then "true" else "false", v, depth, s);
    case Num(n) => ReadNumberValue(n, depth, s, general);
    case Str(text) => ReadStringValue(text, depth, s);
    case Arr(items) => ReadArray(items, depth, s, pretty, indent, general);
    case Obj(members) => ReadObject(members, depth, s, pretty, indent, general);
  }

  // What may stand before an element, and what ends a container.

  function Lead(flat: bool, pretty: bool, indent: nat): string {
    if flat then "" else NewLine(pretty, indent + 1)
  }

  function Closing(flat: bool, pretty: bool, indent: nat, bracket: string): string {
    (if flat then "" else NewLine(pretty, indent)) + bracket
  }

  lemma LeadIsSkipped(flat: bool, pretty: bool, indent: nat, t: string)
    requires Solid(t)
    ensures SkipWs(Lead(flat, pretty, indent) + t) == t
  {
    if flat { assert Lead(flat, pretty, indent) + t == t; } else { SkipNewLine(pretty, indent + 1, t); }
  }

  lemma ClosingIsSkipped(flat: bool, pretty: bool, indent: nat, bracket: string, s: string)
    requires bracket == "]" || bracket == "}"
    ensures Stops(Closing(flat, pretty, indent, bracket) + s)
    ensures SkipWs(Closing(flat, pretty, indent, bracket) + s) == bracket + s
  {
    var t := bracket + s;
    assert Solid(t);
    if flat {
      assert Closing(flat, pretty, indent, bracket) + s == t;
    } else {
      SkipNewLine(pretty, indent, t);
      assert Closing(flat, pretty, indent, bracket) + s == NewLine(pretty, indent) + t;
    }
  }

  lemma ItemsSkipFirst(text: string, read: seq<Value>, depth: nat)
    ensures ParseItems(SkipWs(text), read, depth) == ParseItems(text, read, depth)
  {
    SkipIsIdempotent(text);
  }

  lemma MembersSkipFirst(text: string, read: seq<Member>, depth: nat)
    ensures ParseMembers(SkipWs(text), read, depth) == ParseMembers(text, read, depth)
  {
    SkipIsIdempotent(text);
  }

  // ---------------------------------------------------------------- arrays

  lemma ArrayCore(body: string, s: string, depth: nat, fits: bool, v: Value)
    requires depth <= MAX_DEPTH && SkipWs(body) != "" && SkipWs(body)[0] != ']'
    requires Reads(ParseItems(body, [], depth), fits, v, s)
    ensures Reads(ParseValue("[" + body, depth), fits, v, s)
  {
    assert ("[" + body)[1..] == body;
    ItemsSkipFirst(body, [], depth);
  }

  lemma LastItemCore(lead: string, w: string, closing: string, s: string,
                     v: Value, fits: bool, read: seq<Value>, depth: nat)
    requires SkipWs(lead + (w + (closing + s))) == w + (closing + s)
    requires SkipWs(closing + s) == "]" + s
    requires Reads(ParseValue(w + (closing + s), depth + 1), fits, v, closing + s)
    ensures Reads(ParseItems(lead + w + closing + s, read, depth), fits, Arr(read + [v]), s)
  {
    assert lead + w + closing + s == lead + (w + (closing + s));
    assert ("]" + s)[1..] == s;
  }

  lemma NextItemCore(lead: string, w: string, sep: string, more: string,
                     v: Value, fits: bool, restFits: bool, read: seq<Value>, depth: nat, result: Value, s: string)
    requires sep == "," || sep == ", "
    requires SkipWs(lead + (w + (sep + more))) == w + (sep + more)
    requires Reads(ParseValue(w + (sep + more), depth + 1), fits, v, sep + more)
    requires SkipWs(more) != "" && SkipWs(more)[0] != ']'
    requires fits ==> Reads(ParseItems(more, read + [v], depth), restFits, result, s)
    ensures Reads(ParseItems(lead + (w + (sep + more)), read, depth), fits && restFits, result, s)
  {
    var tail := sep + more;
    assert SkipWs(tail) == tail;
    assert SkipWs(tail[1..]) == SkipWs(more) by {
      if sep == "," { assert tail[1..] == more; } else { assert tail[1..][1..] == more; }
    }
    ItemsSkipFirst(more, read + [v], depth);
  }

  lemma UnfoldItems(items: seq<Value>, flat: bool, pretty: bool, indent: nat, general: real -> string, t: string)
    requires items != []
    ensures var w := Write(items[0], pretty, indent + 1, general);
            if |items| == 1 then
              WriteItems(items, flat, pretty, indent, general) + t == Lead(flat, pretty, indent) + w + t
            else
              var sep := if flat && pretty then ", " else ",";
              var more := WriteItems(items[1..], flat, pretty, indent, general) + t;
              WriteItems(items, flat, pretty, indent, general) + t == Lead(flat, pretty, indent) + (w + (sep + more))
  {
    var w := Write(items[0], pretty, indent + 1, general);
    var lead := Lead(flat, pretty, indent);
    if |items| > 1 {
      var sep := if flat && pretty then ", " else ",";
      var m := WriteItems(items[1..], flat, pretty, indent, general);
      Regroup(lead, w, sep, m, t);
    }
  }

  lemma Regroup(a: string, b: string, c: string, d: string, t: string)
    ensures a + b + c + d + t == a + (b + (c + (d + t)))
  {
  }

  /** Past its blanks, the text of the items does not begin with a bracket. */
  lemma ItemsHead(items: seq<Value>, flat: bool, pretty: bool, indent: nat, general: real -> string, t: string)
    requires items != [] && Integral(items[0])
    ensures var h := SkipWs(WriteItems(items, flat, pretty, indent, general) + t); h != "" && h[0] != ']'
  {
    hide ParseItems, ParseMembers, ParseValue, Write, SkipWs;
    var w := Write(items[0], pretty, indent + 1, general);
    UnfoldItems(items, flat, pretty, indent, general, t);
    var tail := if |items| == 1 then t
                else (if flat && pretty then ", " else ",")
                     + (WriteItems(items[1..], flat, pretty, indent, general) + t);
    assert |items| == 1 ==> Lead(flat, pretty, indent) + w + t == Lead(flat, pretty, indent) + (w + t);
    WriteHead(items[0], pretty, indent + 1, general, tail);
    LeadIsSkipped(flat, pretty, indent, w + tail);
  }

  lemma UnfoldArray(items: seq<Value>, pretty: bool, indent: nat, general: real -> string, s: string)
    requires items != []
    ensures var flat := IsFlat(items);
            Write(Arr(items), pretty, indent, general) + s
            == "[" + (WriteItems(items, flat, pretty, indent, general) + (Closing(flat, pretty, indent, "]") + s))
  {
    var flat := IsFlat(items);
    var nl := if flat then "" else NewLine(pretty, indent);
    Regroup("[", WriteItems(items, flat, pretty, indent, general), nl, "]", s);
    assert nl + ("]" + s) == (nl + "]") + s;
  }

  lemma {:induction false} ReadArray(items: seq<Value>, depth: nat, s: string,
                                     pretty: bool, indent: nat, general: real -> string)
    requires Integral(Arr(items)) && Stops(s) && depth <= MAX_DEPTH
    ensures Reads(ParseValue(Write(Arr(items), pretty, indent, general) + s, depth),
                  depth + Height(Arr(items)) <= MAX_DEPTH, Arr(items), s)
    decreases items, 2
  {
    if items == [] {
      ReadEmptyArray(depth, s);
    } else {
      var flat := IsFlat(items);
      var closing := Closing(flat, pretty, indent, "]") + s;
      UnfoldArray(items, pretty, indent, general, s);
      ItemsHead(items, flat, pretty, indent, general, closing);
      ReadItems(items, [], depth, s, flat, pretty, indent, general);
      assert [] + items == items;
      ArrayCore(WriteItems(items, flat, pretty, indent, general) + closing, s, depth,
                depth + 1 + ItemsHeight(items) <= MAX_DEPTH, Arr(items));
    }
  }

  lemma ReadEmptyArray(depth: nat, s: string)
    requires depth <= MAX_DEPTH
    ensures ParseValue("[]" + s, depth) == Ok(Arr([]), s)
  {
    var t := "[]" + s;
    assert t[1..] == "]" + s;
    assert SkipWs(t[1..]) == t[1..] && t[1..][1..] == s;
  }

  lemma {:induction false} ReadItems(items: seq<Value>, read: seq<Value>, depth: nat, s: string,
                                     flat: bool, pretty: bool, indent: nat, general: real -> string)
    requires items != [] && (forall e :: e in items ==> Integral(e)) && Stops(s)
    ensures Reads(ParseItems(WriteItems(items, flat, pretty, indent, general)
                             + (Closing(flat, pretty, indent, "]") + s), read, depth),
                  depth + 1 + ItemsHeight(items) <= MAX_DEPTH, Arr(read + items), s)
    decreases items, 1
  {
    if |items| == 1 {
      ReadLastItem(items, read, depth, s, flat, pretty, indent, general);
    } else {
      ReadNextItem(items, read, depth, s, flat, pretty, indent, general);
    }
  }

  lemma ReadLastItem(items: seq<Value>, read: seq<Value>, depth: nat, s: string,
                     flat: bool, pretty: bool, indent: nat, general: real -> string)
    requires |items| == 1 && Integral(items[0]) && Stops(s)
    ensures Reads(ParseItems(WriteItems(items, flat, pretty, indent, general)
                             + (Closing(flat, pretty, indent, "]") + s), read, depth),
                  depth + 1 + ItemsHeight(items) <= MAX_DEPTH, Arr(read + items), s)
    decreases items, 0
  {
    hide ParseItems, ParseValue, Write, WriteItems, SkipWs, Closing, Lead;
    var v := items[0];
    var closing := Closing(flat, pretty, indent, "]");
    var lead := Lead(flat, pretty, indent);
    var w := Write(v, pretty, indent + 1, general);
    ClosingIsSkipped(flat, pretty, indent, "]", s);
    UnfoldItems(items, flat, pretty, indent, general, closing + s);
    WriteHead(v, pretty, indent + 1, general, closing + s);
    LeadIsSkipped(flat, pretty, indent, w + (closing + s));
    ReadValue(v, depth + 1, closing + s, pretty, indent + 1, general);
    LastItemCore(lead, w, closing, s, v, depth + 1 + Height(v) <= MAX_DEPTH, read, depth);
    assert lead + w + closing + s == lead + w + (closing + s);
    assert items == [v];
  }

  lemma ReadNextItem(items: seq<Value>, read: seq<Value>, depth: nat, s: string,
                     flat: bool, pretty: bool, indent: nat, general: real -> string)
    requires |items| > 1 && (forall e :: e in items ==> Integral(e)) && Stops(s)
    ensures Reads(ParseItems(WriteItems(items, flat, pretty, indent, general)
                             + (Closing(flat, pretty, indent, "]") + s), read, depth),
                  depth + 1 + ItemsHeight(items) <= MAX_DEPTH, Arr(read + items), s)
    decreases items, 0
  {
    hide ParseItems, ParseValue, Write, WriteItems, SkipWs, Closing, Lead;
    var v := items[0];
    var closing := Closing(flat, pretty, indent, "]") + s;
    var lead := Lead(flat, pretty, indent);
    var w := Write(v, pretty, indent + 1, general);
    var sep := if flat && pretty then ", " else ",";
    var more := WriteItems(items[1..], flat, pretty, indent, general) + closing;
    UnfoldItems(items, flat, pretty, indent, general, closing);
    WriteHead(v, pretty, indent + 1, general, sep + more);
    LeadIsSkipped(flat, pretty, indent, w + (sep + more));
    ReadValue(v, depth + 1, sep + more, pretty, indent + 1, general);
    ItemsHead(items[1..], flat, pretty, indent, general, closing);
    ReadItems(items[1..], read + [v], depth, s, flat, pretty, indent, general);
    assert read + [v] + items[1..] == read + items;
    NextItemCore(lead, w, sep, more, v, depth + 1 + Height(v) <= MAX_DEPTH,
                 depth + 1 + ItemsHeight(items[1..]) <= MAX_DEPTH, read, depth, Arr(read + items), s);
  }

  // ---------------------------------------------------------------- objects

  lemma ObjectCore(body: string, s: string, depth: nat, fits: bool, v: Value)
    requires depth <= MAX_DEPTH && SkipWs(body) != "" && SkipWs(body)[0] != '}'
    requires Reads(ParseMembers(body, [], depth), fits, v, s)
    ensures Reads(ParseValue("{" + body, depth), fits, v, s)
  {
    assert ("{" + body)[1..] == body;
    MembersSkipFirst(body, [], depth);
  }

  /** A key is read up to its colon, and the value text v begins past the blank. */
  lemma ReadKey(key: string, pretty: bool, v: string)
    requires Solid(v)
    ensures var t := WriteString(key) + ((if pretty then ": " else ":") + v);
            SkipWs(t) == t && t[0] == '"'
            && var r := ParseKey(t); r.Ok? && r.value == key && SkipWs(r.rest) == v
  {
    var colon := (if pretty then ": " else ":") + v;
    ReadString(key, colon);
    assert SkipWs(colon) == colon;
    if pretty { assert colon[1..][1..] == v; } else { assert colon[1..] == v; }
  }

  lemma LastMemberCore(lead: string, k: string, key: string, w: string, closing: string, s: string,
                       v: Value, fits: bool, read: seq<Member>, depth: nat)
    requires SkipWs(lead + k) == k
    requires var r := ParseKey(k); r.Ok? && r.value == key && SkipWs(r.rest) == w + (closing + s)
    requires SkipWs(closing + s) == "}" + s
    requires Reads(ParseValue(w + (closing + s), depth + 1), fits, v, closing + s)
    ensures Reads(ParseMembers(lead + k, read, depth), fits, Obj(read + [Member(key, v)]), s)
  {
    assert ("}" + s)[1..] == s;
  }

  lemma NextMemberCore(lead: string, k: string, key: string, w: string, more: string,
                       v: Value, fits: bool, restFits: bool, read: seq<Member>, depth: nat, result: Value, s: string)
    requires SkipWs(lead + k) == k
    requires var r := ParseKey(k); r.Ok? && r.value == key && SkipWs(r.rest) == w + ("," + more)
    requires Reads(ParseValue(w + ("," + more), depth + 1), fits, v, "," + more)
    requires SkipWs(more) != "" && SkipWs(more)[0] != '}'
    requires fits ==> Reads(ParseMembers(more, read + [Member(key, v)], depth), restFits, result, s)
    ensures Reads(ParseMembers(lead + k, read, depth), fits && restFits, result, s)
  {
    var tail := "," + more;
    assert SkipWs(tail) == tail && tail[1..] == more;
    MembersSkipFirst(more, read + [Member(key, v)], depth);
  }

  /** The text of the first member up to the text t of what follows its value. */
  function FirstMember(m: Member, pretty: bool, indent: nat, general: real -> string, t: string): string {
    WriteString(m.key) + ((if pretty then ": " else ":") + (Write(m.value, pretty, indent + 1, general) + t))
  }

  lemma UnfoldMembers(members: seq<Member>, pretty: bool, indent: nat, general: real -> string, t: string)
    requires members != []
    ensures WriteMembers(members, pretty, indent, general) + t
            == Lead(false, pretty, indent)
               + FirstMember(members[0], pretty, indent, general,
                             if |members| == 1 then t
                             else "," + (WriteMembers(members[1..], pretty, indent, general) + t))
  {
    var m := members[0];
    var colon := if pretty then ": " else ":";
    var w := Write(m.value, pretty, indent + 1, general);
    var lead := Lead(false, pretty, indent);
    if |members| == 1 {
      Regroup(lead, WriteString(m.key), colon, w, t);
    } else {
      var more := WriteMembers(members[1..], pretty, indent, general);
      Regroup(lead, WriteString(m.key), colon, w, "," + (more + t));
      Regroup(lead + WriteString(m.key) + colon, w, ",", more, t);
    }
  }

  lemma MembersHead(members: seq<Member>, pretty: bool, indent: nat, general: real -> string, t: string)
    requires members != []
    ensures var h := SkipWs(WriteMembers(members, pretty, indent, general) + t); h != "" && h[0] == '"'
  {
    UnfoldMembers(members, pretty, indent, general, t);
    var k := FirstMember(members[0], pretty, indent, general,
                         if |members| == 1 then t
                         else "," + (WriteMembers(members[1..], pretty, indent, general) + t));
    assert Solid(k) && k[0] == '"';
    LeadIsSkipped(false, pretty, indent, k);
  }

  lemma UnfoldObject(members: seq<Member>, pretty: bool, indent: nat, general: real -> string, s: string)
    requires members != []
    ensures Write(Obj(members), pretty, indent, general) + s
            == "{" + (WriteMembers(members, pretty, indent, general) + (Closing(false, pretty, indent, "}") + s))
  {
    var nl := NewLine(pretty, indent);
    Regroup("{", WriteMembers(members, pretty, indent, general), nl, "}", s);
    assert nl + ("}" + s) == (nl + "}") + s;
  }

  lemma {:induction false} ReadObject(members: seq<Member>, depth: nat, s: string,
                                      pretty: bool, indent: nat, general: real -> string)
    requires Integral(Obj(members)) && Stops(s) && depth <= MAX_DEPTH
    ensures Reads(ParseValue(Write(Obj(members), pretty, indent, general) + s, depth),
                  depth + Height(Obj(members)) <= MAX_DEPTH, Obj(members), s)
    decreases members, 2
  {
    if members == [] {
      ReadEmptyObject(depth, s);
    } else {
      var closing := Closing(false, pretty, indent, "}") + s;
      UnfoldObject(members, pretty, indent, general, s);
      MembersHead(members, pretty, indent, general, closing);
      ReadMembers(members, [], depth, s, pretty, indent, general);
      assert [] + members == members;
      ObjectCore(WriteMembers(members, pretty, indent, general) + closing, s, depth,
                 depth + 1 + MembersHeight(members) <= MAX_DEPTH, Obj(members));
    }
  }

  lemma ReadEmptyObject(depth: nat, s: string)
    requires depth <= MAX_DEPTH
    ensures ParseValue("{}" + s, depth) == Ok(Obj([]), s)
  {
    var t := "{}" + s;
    assert t[1..] == "}" + s;
    assert SkipWs(t[1..]) == t[1..] && t[1..][1..] == s;
  }

  lemma {:induction false} ReadMembers(members: seq<Member>, read: seq<Member>, depth: nat, s: string,
                                       pretty: bool, indent: nat, general: real -> string)
    requires members != [] && (forall m :: m in members ==> Integral(m.value)) && Stops(s)
    ensures Reads(ParseMembers(WriteMembers(members, pretty, indent, general)
                               + (Closing(false, pretty, indent, "}") + s), read, depth),
                  depth + 1 + MembersHeight(members) <= MAX_DEPTH, Obj(read + members), s)
    decreases members, 1
  {
    if |members| == 1 {
      ReadLastMember(members, read, depth, s, pretty, indent, general);
    } else {
      ReadNextMember(members, read, depth, s, pretty, indent, general);
    }
  }

  lemma FirstMemberIsRead(m: Member, pretty: bool, indent: nat, general: real -> string, t: string)
    requires Integral(m.value)
    ensures var k := FirstMember(m, pretty, indent, general, t);
            SkipWs(Lead(false, pretty, indent) + k) == k
            && var r := ParseKey(k);
               r.Ok? && r.value == m.key && SkipWs(r.rest) == Write(m.value, pretty, indent + 1, general) + t
  {
    WriteHead(m.value, pretty, indent + 1, general, t);
    ReadKey(m.key, pretty, Write(m.value, pretty, indent + 1, general) + t);
    LeadIsSkipped(false, pretty, indent, FirstMember(m, pretty, indent, general, t));
  }

  lemma ReadLastMember(members: seq<Member>, read: seq<Member>, depth: nat, s: string,
                       pretty: bool, indent: nat, general: real -> string)
    requires |members| == 1 && Integral(members[0].value) && Stops(s)
    ensures Reads(ParseMembers(WriteMembers(members, pretty, indent, general)
                               + (Closing(false, pretty, indent, "}") + s), read, depth),
                  depth + 1 + MembersHeight(members) <= MAX_DEPTH, Obj(read + members), s)
    decreases members, 0
  {
    hide ParseMembers, ParseValue, Write, WriteMembers, SkipWs, Closing, Lead, FirstMember, ParseKey;
    var m := members[0];
    var closing := Closing(false, pretty, indent, "}");
    ClosingIsSkipped(false, pretty, indent, "}", s);
    UnfoldMembers(members, pretty, indent, general, closing + s);
    FirstMemberIsRead(m, pretty, indent, general, closing + s);
    ReadValue(m.value, depth + 1, closing + s, pretty, indent + 1, general);
    LastMemberCore(Lead(false, pretty, indent), FirstMember(m, pretty, indent, general, closing + s), m.key,
                   Write(m.value, pretty, indent + 1, general), closing, s, m.value,
                   depth + 1 + Height(m.value) <= MAX_DEPTH, read, depth);
    assert members == [Member(m.key, m.value)];
  }

  lemma ReadNextMember(members: seq<Member>, read: seq<Member>, depth: nat, s: string,
                       pretty: bool, indent: nat, general: real -> string)
    requires |members| > 1 && (forall m :: m in members ==> Integral(m.value)) && Stops(s)
    ensures Reads(ParseMembers(WriteMembers(members, pretty, indent, general)
                               + (Closing(false, pretty, indent, "}") + s), read, depth),
                  depth + 1 + MembersHeight(members) <= MAX_DEPTH, Obj(read + members), s)
    decreases members, 0
  {
    hide ParseMembers, ParseValue, Write, WriteMembers, SkipWs, Closing, Lead, FirstMember, ParseKey;
    var m := members[0];
    var closing := Closing(false, pretty, indent, "}") + s;
    var more := WriteMembers(members[1..], pretty, indent, general) + closing;
    UnfoldMembers(members, pretty, indent, general, closing);
    FirstMemberIsRead(m, pretty, indent, general, "," + more);
    ReadValue(m.value, depth + 1, "," + more, pretty, indent + 1, general);
    MembersHead(members[1..], pretty, indent, general, closing);
    ReadMembers(members[1..], read + [m], depth, s, pretty, indent, general);
    assert read + [m] + members[1..] == read + members;
    NextMemberCore(Lead(false, pretty, indent), FirstMember(m, pretty, indent, general, "," + more), m.key,
                   Write(m.value, pretty, indent + 1, general), more, m.value,
                   depth + 1 + Height(m.value) <= MAX_DEPTH, depth + 1 + MembersHeight(members[1..]) <= MAX_DEPTH,
                   read, depth, Obj(read + members), s);
  }

  // ---------------------------------------------------------------- documents

  /** Pretty or compact, whatever printf does with other numbers: parsing the text of an integral value gives
      back that value exactly when no node has more than 64 containers around it; otherwise it is the
      "nesting too deep" error. */
  lemma RoundTrip(v: Value, pretty: bool, general: real -> string)
    requires Integral(v)
    ensures Reads(Parse(Stringify(v, pretty, general)), Height(v) <= MAX_DEPTH, v, "")
  {
    var tail := if pretty then "\n" else "";
    var t := Stringify(v, pretty, general);
    WriteHead(v, pretty, 0, general, tail);
    assert StripBom(t) == t && SkipWs(t) == t;
    ReadValue(v, 0, tail, pretty, 0, general);
    assert pretty ==> tail[1..] == "";
  }

  /** The pretty and the compact text of a value mean the same. */
  lemma PrettyAndCompactAgree(v: Value, general: real -> string)
    requires Integral(v) && Height(v) <= MAX_DEPTH
    ensures Parse(Stringify(v, true, general)) == Parse(Stringify(v, false, general))
  {
    RoundTrip(v, true, general);
    RoundTrip(v, false, general);
  }

  /** Different values are never printed alike. */
  lemma StringifyInjective(v: Value, w: Value, pretty: bool, general: real -> string)
    requires Integral(v) && Integral(w) && Height(v) <= MAX_DEPTH && Height(w) <= MAX_DEPTH
    requires Stringify(v, pretty, general) == Stringify(w, pretty, general)
    ensures v == w
  {
    RoundTrip(v, pretty, general);
    RoundTrip(w, pretty, general);
  }
}

/** The printer and the parser as the program runs them: the printer appends to one shared string, the parser
    moves a cursor over the text. Each is tied to its function in module Json. */
module JsonText {
  import opened Decimal
  import opened Json
  import opened Wrappers

  class TextBuffer {
    var text: string

    constructor ()
      ensures text == ""
    {
      text := "";
    }
  }

  // ---------------------------------------------------------------- printer

  lemma EscapeStep(s: string, i: nat, before: string)
    requires i < |s|
    ensures before + EscapeAll(s[i..]) == before + Escape(s[i]) + EscapeAll(s[i + 1..])
  {
    hide Escape;
    assert s[i..][1..] == s[i + 1..];
  }

  method AppendString(o: TextBuffer, s: string)
    modifies o
    ensures o.text == old(o.text) + WriteString(s)
  {
    o.text := o.text + "\"";
    ghost var all := o.text + EscapeAll(s);
    assert all + "\"" == old(o.text) + WriteString(s);
    assert s[0..] == s;
    for i := 0 to |s|
      invariant o.text + EscapeAll(s[i..]) == all
    {
      EscapeStep(s, i, o.text);
      hide Escape, EscapeAll;
      o.text := o.text + Escape(s[i]);
    }
    assert s[|s|..] == "";
    o.text := o.text + "\"";
  }

  method AppendNewLine(o: TextBuffer, pretty: bool, indent: nat)
    modifies o
    ensures o.text == old(o.text) + NewLine(pretty, indent)
  {
    if pretty { o.text := o.text + "\n" + Spaces(2 * indent); }
  }

  function ItemText(v: Value, flat: bool, pretty: bool, indent: nat, general: real -> string): string {
    (if flat then "" else NewLine(pretty, indent + 1)) + Write(v, pretty, indent + 1, general)
  }

  lemma ItemsStep(items: seq<Value>, i: nat, flat: bool, pretty: bool, indent: nat, general: real -> string)
    requires i < |items|
    ensures WriteItems(items[i..], flat, pretty, indent, general)
            == ItemText(items[i], flat, pretty, indent, general)
               + (if i + 1 == |items| then ""
                  else (if flat && pretty then ", " else ",")
                       + WriteItems(items[i + 1..], flat, pretty, indent, general))
  {
    assert items[i..][1..] == items[i + 1..] && items[i..][0] == items[i];
  }

  function MemberText(m: Member, pretty: bool, indent: nat, general: real -> string): string {
    NewLine(pretty, indent + 1) + WriteString(m.key) + (if pretty then ": " else ":")
    + Write(m.value, pretty, indent + 1, general)
  }

  lemma MembersStep(members: seq<Member>, i: nat, pretty: bool, indent: nat, general: real -> string)
    requires i < |members|
    ensures WriteMembers(members[i..], pretty, indent, general)
            == MemberText(members[i], pretty, indent, general)
               + (if i + 1 == |members| then "" else "," + WriteMembers(members[i + 1..], pretty, indent, general))
  {
    assert members[i..][1..] == members[i + 1..] && members[i..][0] == members[i];
  }

  method AppendItems(o: TextBuffer, items: seq<Value>, flat: bool, pretty: bool, indent: nat, general: real -> string)
    requires items != []
    modifies o
    ensures o.text == old(o.text) + WriteItems(items, flat, pretty, indent, general)
    decreases items, 0
  {
    hide ItemText, WriteItems;
    var i := 0;
    var sep := if flat && pretty then ", " else ",";
    assert items[0..] == items;
    ghost var all := old(o.text) + WriteItems(items, flat, pretty, indent, general);
    while i < |items|
      invariant 0 <= i <= |items|
      invariant i == 0 ==> o.text + WriteItems(items[i..], flat, pretty, indent, general) == all
      invariant 0 < i < |items| ==> o.text + (sep + WriteItems(items[i..], flat, pretty, indent, general)) == all
      invariant i == |items| ==> o.text == all
    {
      ItemsStep(items, i, flat, pretty, indent, general);
      if i > 0 { o.text := o.text + sep; }
      AppendItem(o, items[i], flat, pretty, indent, general);
      i := i + 1;
    }
  }

  method AppendItem(o: TextBuffer, v: Value, flat: bool, pretty: bool, indent: nat, general: real -> string)
    modifies o
    ensures o.text == old(o.text) + ItemText(v, flat, pretty, indent, general)
    decreases v, 1
  {
    hide Write, NewLine;
    if !flat { AppendNewLine(o, pretty, indent + 1); }
    Append(o, v, pretty, indent + 1, general);
  }

  method AppendMembers(o: TextBuffer, members: seq<Member>, pretty: bool, indent: nat, general: real -> string)
    requires members != []
    modifies o
    ensures o.text == old(o.text) + WriteMembers(members, pretty, indent, general)
    decreases members, 0
  {
    hide MemberText, WriteMembers;
    var i := 0;
    assert members[0..] == members;
    ghost var all := old(o.text) + WriteMembers(members, pretty, indent, general);
    while i < |members|
      invariant 0 <= i <= |members|
      invariant i == 0 ==> o.text + WriteMembers(members[i..], pretty, indent, general) == all
      invariant 0 < i < |members| ==> o.text + ("," + WriteMembers(members[i..], pretty, indent, general)) == all
      invariant i == |members| ==> o.text == all
    {
      MembersStep(members, i, pretty, indent, general);
      if i > 0 { o.text := o.text + ","; }
      AppendMember(o, members[i], pretty, indent, general);
      i := i + 1;
    }
  }

  method AppendMember(o: TextBuffer, m: Member, pretty: bool, indent: nat, general: real -> string)
    modifies o
    ensures o.text == old(o.text) + MemberText(m, pretty, indent, general)
    decreases m, 0
  {
    hide Write, WriteString, NewLine;
    AppendNewLine(o, pretty, indent + 1);
    AppendString(o, m.key);
    o.text := o.text + (if pretty then ": " else ":");
    Append(o, m.value, pretty, indent + 1, general);
  }

  method Append(o: TextBuffer, v: Value, pretty: bool, indent: nat, general: real -> string)
    modifies o
    ensures o.text == old(o.text) + Write(v, pretty, indent, general)
    decreases v, 0
  {
    hide WriteItems, WriteMembers, WriteNumber, WriteString, NewLine;
    match v
    case Null => o.text := o.text + "null";
    case Bool(b) => o.text := o.text + (if b then "true" else "false");
    case Num(n) => o.text := o.text + WriteNumber(n, general);
    case Str(s) => AppendString(o, s);
    case Arr(items) =>
      if items == [] {
        o.text := o.text + "[]";
      } else {
        var flat := IsFlat(items);
        o.text := o.text + "[";
        AppendItems(o, items, flat, pretty, indent, general);
        if !flat { AppendNewLine(o, pretty, indent); }
        o.text := o.text + "]";
      }
    case Obj(members) =>
      if members == [] {
        o.text := o.text + "{}";
      } else {
        o.text := o.text + "{";
        AppendMembers(o, members, pretty, indent, general);
        AppendNewLine(o, pretty, indent);
        o.text := o.text + "}";
      }
  }

  method StringifyValue(v: Value, pretty: bool, general: real -> string) returns (text: string)
    ensures text == Stringify(v, pretty, general)
  {
    hide Write;
    var o := new TextBuffer();
    Append(o, v, pretty, 0, general);
    if pretty { o.text := o.text + "\n"; }
    text := o.text;
  }

  // ---------------------------------------------------------------- parser

  /** One turn of the array loop, for a value that was read from the text after the blanks. */
  lemma ItemsTurn(s: string, read: seq<Value>, depth: nat)
    ensures var r := ParseValue(SkipWs(s), depth + 1);
            var all := ParseItems(s, read, depth);
            if r.Fail? then all == Fail(r.error, r.rest)
            else
              var s1 := SkipWs(r.rest);
              if s1 == "" then all == Fail("unterminated array", s1)
              else if s1[0] == ',' then
                var s2 := SkipWs(s1[1..]);
                all == if s2 != "" && s2[0] == ']' then Ok(Arr(read + [r.value]), s2[1..])
                       else ParseItems(s2, read + [r.value], depth)
              else if s1[0] == ']' then all == Ok(Arr(read + [r.value]), s1[1..])
              else all == Fail("expected , or ]", s1)
  {
    hide ParseValue, SkipWs;
  }

  /** A key, its colon, and the value. */
  function ParseMember(s: string, depth: nat): Parsed<Member> {
    match ParseKey(s)
    case Fail(e, rest) => Fail(e, rest)
    case Ok(key, rest) =>
      match ParseValue(SkipWs(rest), depth + 1)
      case Fail(e, rest2) => Fail(e, rest2)
      case Ok(v, rest2) => Ok(Member(key, v), rest2)
  }

  lemma MembersTurn(s: string, read: seq<Member>, depth: nat)
    ensures var r := ParseMember(SkipWs(s), depth);
            var all := ParseMembers(s, read, depth);
            if r.Fail? then all == Fail(r.error, r.rest)
            else
              var s1 := SkipWs(r.rest);
              if s1 == "" then all == Fail("unterminated object", s1)
              else if s1[0] == ',' then
                var s2 := SkipWs(s1[1..]);
                all == if s2 != "" && s2[0] == '}' then Ok(Obj(read + [r.value]), s2[1..])
                       else ParseMembers(s2, read + [r.value], depth)
              else if s1[0] == '}' then all == Ok(Obj(read + [r.value]), s1[1..])
              else all == Fail("expected , or }", s1)
  {
    hide ParseValue, ParseKey, SkipWs;
  }

  lemma HasDigitTurn(s: string, i: nat, j: nat)
    requires i <= j < |s|
    ensures !HasDigit(s, i, i)
    ensures HasDigit(s, i, j + 1) == (HasDigit(s, i, j) || IsDigit(s[j]))
  {
  }

  lemma SignStart(s: string)
    ensures SignLength(s) == if s != "" && (s[0] == '-' || s[0] == '+') then 1 else 0
    ensures !HasDigit(s, SignLength(s), SignLength(s))
  {
  }

  lemma HexStart(s: string)
    ensures HexRoom(4, 0)
    ensures Hex4(s) == if |s| < 4 then Fail("bad \\u escape", s) else HexDigits(s, 4, 0)
  {
    hide HexDigits;
  }

  lemma HexEnd(s: string, v: nat)
    requires HexRoom(0, v)
    ensures HexDigits(s, 0, v) == Ok(v, s)
  {
  }

  lemma HexTurn(s: string, n: nat, v: nat)
    requires 0 < n <= |s| && HexRoom(n, v)
    ensures match HexValue(s[0])
            case None => HexDigits(s, n, v) == Fail("bad hex digit", s[1..])
            case Some(d) => HexRoom(n - 1, 16 * v + d) && HexDigits(s, n, v) == HexDigits(s[1..], n - 1, 16 * v + d)
  {
  }

  class Parser {
    const t: string
    var p: nat
    var err: string

    constructor (text: string)
      ensures t == text && p == 0 && err == ""
    {
      t, p, err := text, 0, "";
    }

    /** The text from position i on. */
    function From(i: nat): string
      requires i <= |t|
    {
      t[i..]
    }

    lemma Head(i: nat)
      requires i <= |t|
      ensures if i == |t| then From(i) == ""
              else From(i) != "" && From(i)[0] == t[i] && From(i)[1..] == From(i + 1)
      ensures |From(i)| == |t| - i
    {
    }

    /** What the caller sees of a production: success moves the cursor past the text consumed, failure leaves it
        where the error was noticed and records the first message. */
    ghost predicate Follows<T>(ok: bool, out: T, r: Parsed<T>)
      reads this
    {
      && p <= |t|
      && ok == r.Ok?
      && From(p) == r.rest
      && (if ok then out == r.value && err == "" else err == r.error)
    }

    method FailWith(msg: string)
      modifies this`err
      ensures err == if old(err) == "" then msg else old(err)
    {
      if err == "" { err := msg; }
    }

    method SkipBlanks()
      requires p <= |t|
      modifies this`p
      ensures old(p) <= p <= |t| && From(p) == SkipWs(From(old(p)))
    {
      hide From;
      Head(p);
      while p < |t|
        invariant old(p) <= p <= |t|
        invariant SkipWs(From(p)) == SkipWs(From(old(p)))
        decreases |t| - p
      {
        var c := t[p];
        Head(p);
        Head(p + 1);
        if IsSpace(c) {
          p := p + 1;
        } else if c == '/' && p + 1 < |t| && t[p + 1] == '/' {
          ghost var start := p;
          p := p + 1;
          while p < |t| && t[p] != '\n'
            invariant start < p <= |t|
            invariant SkipLine(From(p)) == SkipLine(From(start + 1))
          {
            Head(p);
            p := p + 1;
          }
          Head(p);
        } else {
          return;
        }
      }
      Head(p);
    }

    method ReadLiteral(word: string, v: Value) returns (ok: bool, out: Value)
      requires p <= |t| && err == "" && word != ""
      modifies this
      ensures Follows(ok, out, Literal(From(old(p)), word, v))
    {
      out := Null;
      if !(word <= t[p..]) {
        FailWith("invalid literal");
        return false, out;
      }
      p := p + |word|;
      return true, v;
    }

    lemma At(start: nat, i: nat)
      requires start <= i < |t|
      ensures i - start < |From(start)| && From(start)[i - start] == t[i]
    {
    }

    lemma Slices(start: nat, i: nat)
      requires start <= i <= |t|
      ensures i - start <= |From(start)|
      ensures From(i) == From(start)[i - start..] && t[start..i] == From(start)[..i - start]
    {
    }

    /** The scan of parseNumber: an optional sign, then everything that may belong to a number. */
    method SkipNumber() returns (digits: bool)
      requires p <= |t|
      modifies this`p
      ensures old(p) <= p <= |t|
      ensures var s := From(old(p));
              var n := NumberEnd(s, SignLength(s));
              p == old(p) + n && digits == HasDigit(s, SignLength(s), n)
    {
      hide From, HasDigit, IsNumberChar, SignLength, NumberEnd;
      var start := p;
      ghost var s := From(start);
      Head(p);
      SignStart(s);
      if p < |t| && (t[p] == '-' || t[p] == '+') { p := p + 1; }
      ghost var first := p - start;
      digits := false;
      Continues(start);
      while p < |t| && ContinuesNumber(start)
        invariant start + first <= p <= |t|
        invariant NumberEnd(s, p - start) == NumberEnd(s, first)
        invariant digits == HasDigit(s, first, p - start)
        invariant ContinuesNumber(start) == (p < |t| && IsNumberChar(s, p - start))
      {
        At(start, p);
        NumberTurn(s, p - start);
        HasDigitTurn(s, first, p - start);
        if IsDigit(t[p]) { digits := true; }
        p := p + 1;
        Continues(start);
      }
      NumberTurn(s, p - start);
    }

    predicate ContinuesNumber(start: nat)
      requires start <= p <= |t|
      reads this
    {
      && p < |t|
      && (IsDigit(t[p]) || t[p] == '.' || t[p] == 'e' || t[p] == 'E'
          || ((t[p] == '-' || t[p] == '+') && p > start && (t[p - 1] == 'e' || t[p - 1] == 'E')))
    }

    lemma Continues(start: nat)
      requires start <= p <= |t|
      ensures |From(start)| == |t| - start
      ensures ContinuesNumber(start) == (p < |t| && IsNumberChar(From(start), p - start))
    {
      if p < |t| { At(start, p); }
      if p > start { At(start, p - 1); }
    }

    lemma NumberTurn(s: string, i: nat)
      requires i <= |s|
      ensures NumberEnd(s, i) == if i < |s| && IsNumberChar(s, i) then NumberEnd(s, i + 1) else i
    {
      hide IsNumberChar;
    }

    method ReadNumber() returns (ok: bool, out: Value)
      requires p <= |t| && err == ""
      modifies this
      ensures Follows(ok, out, ParseNumber(From(old(p))))
    {
      hide HasDigit, Strtod, IsFinite, NumberEnd, SignLength, From;
      out := Null;
      var start := p;
      var digits := SkipNumber();
      Slices(start, p);
      if !digits {
        FailWith("invalid number");
        return false, out;
      }
      var r := Strtod(t[start..p]);
      if r == None || !IsFinite(r.value) {
        FailWith("invalid number");
        return false, out;
      }
      return true, Num(r.value);
    }

    method ReadHex4() returns (ok: bool, v: nat)
      requires p <= |t| && err == ""
      modifies this
      ensures Follows(ok, v, Hex4(From(old(p))))
    {
      hide From, HexRoom, HexValue, HexDigits, Hex4;
      Head(p);
      v := 0;
      HexStart(From(p));
      if p + 4 > |t| {
        FailWith("bad \\u escape");
        return false, v;
      }
      var i := 0;
      while i < 4
        invariant 0 <= i <= 4 && p == old(p) + i && err == "" && |From(p)| == |t| - p
        invariant HexRoom(4 - i, v)
        invariant HexDigits(From(p), 4 - i, v) == HexDigits(From(old(p)), 4, 0)
      {
        Head(p);
        Head(p + 1);
        HexTurn(From(p), 4 - i, v);
        var d := HexValue(t[p]);
        p := p + 1;
        if d == None {
          FailWith("bad hex digit");
          return false, v;
        }
        v := 16 * v + d.value;
        i := i + 1;
      }
      HexEnd(From(p), v);
      return true, v;
    }

    method ReadUnicodeEscape() returns (ok: bool, text: string)
      requires p <= |t| && err == ""
      modifies this
      ensures Follows(ok, text, UnicodeEscape(From(old(p))))
    {
      hide Hex4, Utf8;
      text := "";
      var cp;
      ok, cp := ReadHex4();
      if !ok { return; }
      if 0xD800 <= cp <= 0xDBFF && p + 6 <= |t| && t[p] == '\\' && t[p + 1] == 'u' {
        assert From(p)[2..] == From(p + 2);
        p := p + 2;
        var lo;
        ok, lo := ReadHex4();
        if !ok { return; }
        if 0xDC00 <= lo <= 0xDFFF { cp := 0x1_0000 + (cp - 0xD800) * 1024 + (lo - 0xDC00); }
      }
      return true, Utf8(cp);
    }

    method ReadString() returns (ok: bool, out: string)
      requires p < |t| && err == ""
      modifies this
      ensures Follows(ok, out, StringBody(From(old(p) + 1), ""))
    {
      hide UnicodeEscape, SimpleEscape, From;
      out := "";
      p := p + 1;
      while p < |t|
        invariant old(p) < p <= |t| && err == ""
        invariant StringBody(From(p), out) == StringBody(From(old(p) + 1), "")
        decreases |t| - p
      {
        Head(p);
        var c := t[p];
        p := p + 1;
        if c == '"' { return true, out; }
        if c == '\\' {
          Head(p);
          if p >= |t| { break; }
          assert From(p - 1)[2..] == From(p - 1)[1..][1..];
          var e := t[p];
          p := p + 1;
          if e == 'u' {
            var text;
            ok, text := ReadUnicodeEscape();
            if !ok { return; }
            Head(p);
            out := out + text;
          } else {
            var x := SimpleEscape(e);
            if x == None {
              FailWith("bad escape");
              return false, out;
            }
            out := out + [x.value];
          }
        } else {
          out := out + [c];
        }
      }
      Head(p);
      FailWith("unterminated string");
      return false, out;
    }

    method ReadValue(depth: nat) returns (ok: bool, out: Value)
      requires p <= |t| && err == ""
      modifies this
      ensures Follows(ok, out, ParseValue(From(old(p)), depth))
      ensures ok ==> p > old(p)
      decreases |t| - p, 1
    {
      hide From, ParseArray, ParseObject, ParseNumber, Literal, StringBody;
      Head(p);
      out := Null;
      ghost var start := p;
      if depth > MAX_DEPTH {
        FailWith("nesting too deep");
        return false, out;
      }
      if p >= |t| {
        FailWith("unexpected end");
        return false, out;
      }
      var c := t[p];
      if c == '{' {
        ok, out := ReadObject(depth);
      } else if c == '[' {
        ok, out := ReadArray(depth);
      } else if c == '"' {
        var s;
        ok, s := ReadString();
        if ok { out := Str(s); }
      } else if c == 't' {
        ok, out := ReadLiteral("true", Bool(true));
      } else if c == 'f' {
        ok, out := ReadLiteral("false", Bool(false));
      } else if c == 'n' {
        ok, out := ReadLiteral("null", Null);
      } else {
        ok, out := ReadNumber();
      }
      Head(p);
    }

    method ReadArray(depth: nat) returns (ok: bool, out: Value)
      requires p < |t| && err == ""
      modifies this
      ensures Follows(ok, out, ParseArray(From(old(p) + 1), depth))
      decreases |t| - p, 0
    {
      hide ParseValue, SkipWs, ParseItems, From;
      out := Null;
      p := p + 1;
      SkipBlanks();
      Head(p);
      if p < |t| && t[p] == ']' {
        p := p + 1;
        return true, Arr([]);
      }
      ok, out := ReadItems(depth);
    }

    /** The loop of parseArray. */
    method ReadItems(depth: nat) returns (ok: bool, out: Value)
      requires p <= |t| && err == ""
      modifies this
      ensures Follows(ok, out, ParseItems(From(old(p)), [], depth))
      decreases |t| - p, 2
    {
      hide ParseValue, SkipWs, ParseItems, From;
      out := Null;
      var arr := [];
      ghost var loop := From(p);
      while true
        invariant old(p) <= p <= |t| && err == ""
        invariant ParseItems(From(p), arr, depth) == ParseItems(loop, [], depth)
        decreases |t| - p
      {
        ItemsTurn(From(p), arr, depth);
        SkipBlanks();
        var v;
        ok, v := ReadValue(depth + 1);
        if !ok { return; }
        SkipBlanks();
        Head(p);
        if p >= |t| {
          FailWith("unterminated array");
          return false, out;
        }
        if t[p] == ',' {
          p := p + 1;
          SkipBlanks();
          Head(p);
          arr := arr + [v];
          if p < |t| && t[p] == ']' {
            p := p + 1;
            return true, Arr(arr);
          }
        } else if t[p] == ']' {
          p := p + 1;
          return true, Arr(arr + [v]);
        } else {
          FailWith("expected , or ]");
          return false, out;
        }
      }
    }

    method ReadKey() returns (ok: bool, key: string)
      requires p <= |t| && err == ""
      modifies this
      ensures Follows(ok, key, ParseKey(From(old(p))))
      ensures p >= old(p)
    {
      hide From, StringBody, SkipWs;
      Head(p);
      key := "";
      if p >= |t| || t[p] != '"' {
        FailWith("expected key");
        return false, key;
      }
      ok, key := ReadString();
      Head(p);
      if !ok { return; }
      SkipBlanks();
      Head(p);
      if p >= |t| || t[p] != ':' {
        FailWith("expected :");
        return false, key;
      }
      p := p + 1;
    }

    method ReadMember(depth: nat) returns (ok: bool, m: Member)
      requires p <= |t| && err == ""
      modifies this
      ensures Follows(ok, m, ParseMember(From(old(p)), depth))
      ensures ok ==> p > old(p)
      decreases |t| - p, 2
    {
      hide ParseValue, SkipWs, ParseKey, From;
      m := Member("", Null);
      var key;
      ok, key := ReadKey();
      if !ok { return; }
      SkipBlanks();
      var v;
      ok, v := ReadValue(depth + 1);
      if !ok { return; }
      m := Member(key, v);
    }

    method ReadObject(depth: nat) returns (ok: bool, out: Value)
      requires p < |t| && err == ""
      modifies this
      ensures Follows(ok, out, ParseObject(From(old(p) + 1), depth))
      decreases |t| - p, 0
    {
      hide SkipWs, ParseMember, ParseMembers, From;
      out := Null;
      p := p + 1;
      SkipBlanks();
      Head(p);
      if p < |t| && t[p] == '}' {
        p := p + 1;
        return true, Obj([]);
      }
      ok, out := ReadMembers(depth);
    }

    /** The loop of parseObject. */
    method ReadMembers(depth: nat) returns (ok: bool, out: Value)
      requires p <= |t| && err == ""
      modifies this
      ensures Follows(ok, out, ParseMembers(From(old(p)), [], depth))
      decreases |t| - p, 3
    {
      hide SkipWs, ParseMember, ParseMembers, From;
      out := Null;
      var obj := [];
      ghost var loop := From(p);
      while true
        invariant old(p) <= p <= |t| && err == ""
        invariant ParseMembers(From(p), obj, depth) == ParseMembers(loop, [], depth)
        decreases |t| - p
      {
        MembersTurn(From(p), obj, depth);
        SkipBlanks();
        var m;
        ok, m := ReadMember(depth);
        if !ok { return; }
        SkipBlanks();
        Head(p);
        if p >= |t| {
          FailWith("unterminated object");
          return false, out;
        }
        if t[p] == ',' {
          p := p + 1;
          SkipBlanks();
          Head(p);
          obj := obj + [m];
          if p < |t| && t[p] == '}' {
            p := p + 1;
            return true, Obj(obj);
          }
        } else if t[p] == '}' {
          p := p + 1;
          return true, Obj(obj + [m]);
        } else {
          FailWith("expected , or }");
          return false, out;
        }
      }
    }

    method Run() returns (ok: bool, out: Value, error: string, errorOffset: nat)
      requires p == 0 && err == ""
      modifies this
      ensures var r := ParseDocument(t);
              ok == r.Ok? && (if ok then out == r.value else error == r.error && errorOffset == |t| - |r.rest|)
    {
      assert From(0) == t;
      hide From, ParseValue, SkipWs;
      error, errorOffset := "", 0;
      SkipBlanks();
      ok, out := ReadValue(0);
      Head(p);
      if !ok { return false, out, err, p; }
      SkipBlanks();
      Head(p);
      if p != |t| { return false, out, "trailing characters", p; }
    }
  }

  method ParseText(text: string) returns (ok: bool, out: Value, error: string, errorOffset: nat)
    ensures var r := Parse(text);
            ok == r.Ok? && (if ok then out == r.value
                            else error == r.error && errorOffset == |StripBom(text)| - |r.rest|)
  {
    var parser := new Parser(StripBom(text));
    ok, out, error, errorOffset := parser.Run();
  }
}

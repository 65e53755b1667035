/** What the escapes of a JSON string stand for: hex digits, code points, surrogate pairs and their UTF-8 form. And
    which blanks and comments are skipped. */
module JsonStrings {
  import opened Decimal
  import opened Json
  import opened Wrappers

  // ---------------------------------------------------------------- UTF-8

  /** The code point that a UTF-8 sequence stands for, by the number of its bytes. */
  function Decoded(bytes: string): int {
    var b := seq(|bytes|, i requires 0 <= i < |bytes| => bytes[i] as int);
    match |b|
    case 1 => b[0]
    case 2 => (b[0] - 0xC0) * 64 + (b[1] - 0x80)
    case 3 => (b[0] - 0xE0) * 4096 + (b[1] - 0x80) * 64 + (b[2] - 0x80)
    case 4 => (b[0] - 0xF0) * 262144 + (b[1] - 0x80) * 4096 + (b[2] - 0x80) * 64 + (b[3] - 0x80)
    case _ => -1
  }

  /** The first byte says how many there are, and each of the others is a continuation byte. */
  predicate WellFormed(bytes: string) {
    && 1 <= |bytes| <= 4
    && (match |bytes|
        case 1 => bytes[0] as int < 0x80
        case 2 => 0xC0 <= bytes[0] as int < 0xE0
        case 3 => 0xE0 <= bytes[0] as int < 0xF0
        case _ => 0xF0 <= bytes[0] as int < 0xF8)
    && forall i :: 1 <= i < |bytes| ==> 0x80 <= bytes[i] as int < 0xC0
  }

  /** Every code point has the shortest well-formed sequence that stands for it. */
  lemma Utf8Decodes(cp: nat)
    requires cp < 0x11_0000
    ensures Decoded(Utf8(cp)) == cp && WellFormed(Utf8(cp))
    ensures |Utf8(cp)| == if cp < 0x80 then 1 else if cp < 0x800 then 2 else if cp < 0x1_0000 then 3 else 4
  {
    if cp >= 0x1_0000 {
      FourDecode(cp);
    } else if cp >= 0x800 {
      ThreeDecode(cp);
    }
  }

  lemma ThreeDecode(cp: nat)
    requires 0x800 <= cp < 0x1_0000
    ensures Decoded(Utf8(cp)) == cp && WellFormed(Utf8(cp))
  {
    assert cp / 64 == cp / 64 / 64 * 64 + cp / 64 % 64;
    assert cp / 64 / 64 == cp / 4096;
  }

  lemma FourDecode(cp: nat)
    requires 0x1_0000 <= cp < 0x11_0000
    ensures Decoded(Utf8(cp)) == cp && WellFormed(Utf8(cp))
  {
    assert cp / 64 == cp / 64 / 64 * 64 + cp / 64 % 64;
    assert cp / 64 / 64 == cp / 4096;
    assert cp / 4096 == cp / 4096 / 64 * 64 + cp / 4096 % 64;
    assert cp / 4096 / 64 == cp / 262144;
  }

  // ---------------------------------------------------------------- hex digits

  const LOWER := "0123456789abcdef"
  const UPPER := "0123456789ABCDEF"

  lemma HexValueIff(c: char, d: nat)
    ensures HexValue(c) == Some(d) <==> d < 16 && (c == LOWER[d] || c == UPPER[d])
  {
    if d < 16 && (c == LOWER[d] || c == UPPER[d]) {
      assert LOWER[d] == (if d < 10 then '0' as int + d else 'a' as int + d - 10) as char;
      assert UPPER[d] == (if d < 10 then '0' as int + d else 'A' as int + d - 10) as char;
    }
  }

  /** Four hex digits, in either case. */
  predicate IsHex4(s: string, d: seq<nat>) {
    |s| == |d| == 4 && forall i :: 0 <= i < 4 ==> d[i] < 16 && (s[i] == LOWER[d[i]] || s[i] == UPPER[d[i]])
  }

  function Hex4Worth(d: seq<nat>): nat
    requires |d| == 4
  {
    d[0] * 4096 + d[1] * 256 + d[2] * 16 + d[3]
  }

  lemma OneHexDigit(c: char, d: nat, rest: string, n: nat, v: nat)
    requires d < 16 && (c == LOWER[d] || c == UPPER[d]) && 1 <= n <= |rest| + 1 && HexRoom(n, v)
    ensures HexRoom(n - 1, 16 * v + d)
    ensures HexDigits([c] + rest, n, v) == HexDigits(rest, n - 1, 16 * v + d)
  {
    HexValueIff(c, d);
    hide HexValue;
    assert ([c] + rest)[1..] == rest;
  }

  lemma Hex4Reads(s: string, d: seq<nat>, rest: string)
    requires IsHex4(s, d)
    ensures Hex4(s + rest) == Ok(Hex4Worth(d), rest)
  {
    hide HexDigits, HexRoom;
    var (t1, t2, t3) := ([s[1]] + ([s[2]] + ([s[3]] + rest)), [s[2]] + ([s[3]] + rest), [s[3]] + rest);
    assert s + rest == [s[0]] + t1;
    NoRoom();
    OneHexDigit(s[0], d[0], t1, 4, 0);
    OneHexDigit(s[1], d[1], t2, 3, d[0]);
    OneHexDigit(s[2], d[2], t3, 2, d[0] * 16 + d[1]);
    OneHexDigit(s[3], d[3], rest, 1, d[0] * 256 + d[1] * 16 + d[2]);
    AllHexDigits(rest, Hex4Worth(d));
  }

  lemma NoRoom()
    ensures HexRoom(4, 0)
  {
  }

  lemma AllHexDigits(s: string, v: nat)
    requires HexRoom(0, v)
    ensures HexDigits(s, 0, v) == Ok(v, s)
  {
  }

  // ---------------------------------------------------------------- escapes

  /** A \\u escape whose number is no high surrogate stands for that code point, in UTF-8. */
  lemma UnicodeReads(s: string, d: seq<nat>, rest: string)
    requires IsHex4(s, d) && !(0xD800 <= Hex4Worth(d) <= 0xDBFF)
    ensures UnicodeEscape(s + rest) == Ok(Utf8(Hex4Worth(d)), rest)
  {
    hide Hex4, Hex4Worth, Utf8;
    Hex4Reads(s, d, rest);
  }

  /** Two escapes that are a high and a low surrogate stand for the code point that they encode: ten bits each, above
      0xFFFF. */
  lemma SurrogatesRead(hi: string, h: seq<nat>, lo: string, l: seq<nat>, rest: string, cp: nat)
    requires IsHex4(hi, h) && IsHex4(lo, l) && 0x1_0000 <= cp < 0x11_0000
    requires Hex4Worth(h) == 0xD800 + (cp - 0x1_0000) / 1024 && Hex4Worth(l) == 0xDC00 + (cp - 0x1_0000) % 1024
    ensures UnicodeEscape(hi + ("\\u" + (lo + rest))) == Ok(Utf8(cp), rest)
  {
    hide Hex4, Hex4Worth, Utf8;
    var next := "\\u" + (lo + rest);
    Hex4Reads(hi, h, next);
    Hex4Reads(lo, l, rest);
    assert next[2..] == lo + rest && next[0] == '\\' && next[1] == 'u';
    assert |lo| == 4;
    assert (cp - 0x1_0000) / 1024 * 1024 + (cp - 0x1_0000) % 1024 == cp - 0x1_0000;
  }

  // ---------------------------------------------------------------- blanks and comments

  /** A line comment is skipped with its line break, however many slashes it begins with. */
  lemma CommentIsSkipped(text: string, rest: string)
    requires '\n' !in text
    ensures SkipWs("//" + text + "\n" + rest) == SkipWs(rest)
  {
    var s := "//" + text + "\n" + rest;
    assert s[1..] == "/" + text + ("\n" + rest);
    LineIsSkipped("/" + text, "\n" + rest);
    assert ("\n" + rest)[1..] == rest;
  }

  lemma {:induction false} LineIsSkipped(text: string, rest: string)
    requires '\n' !in text && rest != "" && rest[0] == '\n'
    ensures SkipLine(text + rest) == rest
  {
    if text == "" {
      assert text + rest == rest;
    } else {
      assert (text + rest)[1..] == text[1..] + rest;
      LineIsSkipped(text[1..], rest);
    }
  }

  /** So are blanks. */
  lemma {:induction false} BlanksAreSkipped(blanks: string, rest: string)
    requires forall i :: 0 <= i < |blanks| ==> blanks[i] in {' ', '\t', '\n', '\r'}
    ensures SkipWs(blanks + rest) == SkipWs(rest)
  {
    if blanks == "" {
      assert blanks + rest == rest;
    } else {
      assert (blanks + rest)[1..] == blanks[1..] + rest;
      BlanksAreSkipped(blanks[1..], rest);
    }
  }
}

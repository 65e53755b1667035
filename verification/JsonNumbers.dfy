/** What a number in a JSON text is worth: sign, digits, fraction and exponent. */
module JsonNumbers {
  import opened Decimal
  import opened Json
  import opened Wrappers

  /** The powers of ten. */
  function TenTo(x: int): (r: real)
    ensures r > 0.0
    decreases if x < 0 then -x else x
  {
    if x == 0 then 1.0 else if x > 0 then 10.0 * TenTo(x - 1) else TenTo(x + 1) / 10.0
  }

  /** An exponent part: the letter, a sign or none, and digits; or no such part. */
  datatype Exponent = NoExponent | Exponent(letter: char, sign: string, digits: string) {
    predicate Valid() {
      Exponent? ==> (letter == 'e' || letter == 'E') && IsSign(sign) && digits != "" && AllDigits(digits)
    }

    function Text(): string { if NoExponent? then "" else [letter] + sign + digits }

    function Value(): int
      requires Valid()
    {
      if NoExponent? then 0 else if sign == "-" then 0 - DigitsValue(digits) else DigitsValue(digits)
    }
  }

  predicate IsSign(s: string) { s == "" || s == "-" || s == "+" }

  /** The parts of a number: whole or fraction may be missing, not both, and without the point there is no fraction. */
  datatype Number = Number(sign: string, whole: string, point: bool, fraction: string, exponent: Exponent) {
    predicate Valid() {
      && IsSign(sign) && AllDigits(whole) && AllDigits(fraction) && whole + fraction != "" && exponent.Valid()
      && (!point ==> fraction == "")
    }

    function Text(): string { sign + whole + (if point then "." + fraction else "") + exponent.Text() }

    /** What it is worth. */
    function Worth(): real
      requires Valid()
    {
      (if sign == "-" then -1.0 else 1.0)
      * (DigitsValue(whole) as real + DigitsValue(fraction) as real * TenTo(0 - |fraction|)) * TenTo(exponent.Value())
    }
  }

  // ---------------------------------------------------------------- powers of ten

  lemma {:induction false} TenToNext(x: int)
    ensures TenTo(x + 1) == 10.0 * TenTo(x)
  {
  }

  lemma {:induction false} TenToAdd(x: int, n: nat)
    ensures TenTo(x - n) == TenTo(x) * TenTo(0 - n)
  {
    hide TenTo;
    if n == 0 {
      TenToZero();
    } else {
      TenToAdd(x, n - 1);
      TenToNext(x - n);
      TenToNext(0 - n);
      var (p, q, a, b) := (TenTo(x), TenTo(1 - n), TenTo(x - n), TenTo(0 - n));
      assert 10.0 * a == p * (10.0 * b);
      Tenfold(a, p, b);
    }
  }

  lemma TenToZero()
    ensures TenTo(0) == 1.0
  {
  }

  lemma Tenfold(a: real, p: real, b: real)
    requires 10.0 * a == p * (10.0 * b)
    ensures a == p * b
  {
    assert p * (10.0 * b) == 10.0 * (p * b);
  }

  lemma {:induction false} Pow10IsTenTo(n: nat)
    ensures Pow10(n) as real == TenTo(n) && TenTo(n) * TenTo(0 - n) == 1.0
  {
    if n > 0 {
      Pow10IsTenTo(n - 1);
      TenToNext(0 - n);
      var (a, b) := (TenTo(n - 1), TenTo(0 - n));
      assert a * (10.0 * b) == (10.0 * a) * b;
    }
  }

  lemma ScaleIs(m: int, y: int)
    ensures Scale(m, y) == m as real * TenTo(y)
  {
    hide Pow10, TenTo;
    if y >= 0 {
      Pow10IsTenTo(y);
      Lifted(m, Pow10(y));
    } else {
      Pow10IsTenTo(-y);
      Quotient(m as real, Pow10(-y) as real, TenTo(y));
    }
  }

  lemma Lifted(m: int, p: nat)
    ensures (m * p) as real == m as real * p as real
  {
  }

  lemma Quotient(m: real, p: real, q: real)
    requires p > 0.0 && p * q == 1.0
    ensures m / p == m * q
  {
    assert m / p * p == m;
    assert m * q * p == m * (p * q);
    assert (m / p - m * q) * p == 0.0;
  }

  // ---------------------------------------------------------------- digits

  lemma {:induction false} DigitsJoin(a: string, b: string)
    requires AllDigits(a) && AllDigits(b)
    ensures AllDigits(a + b) && DigitsValue(a + b) == DigitsValue(a) * Pow10(|b|) + DigitsValue(b)
  {
    if b == "" {
      assert a + b == a;
    } else {
      var (init, last) := (b[..|b| - 1], b[|b| - 1]);
      DigitsJoin(a, init);
      assert (a + b)[..|a + b| - 1] == a + init;
      assert DigitsValue(a) * Pow10(|b|) == 10 * (DigitsValue(a) * Pow10(|init|));
    }
  }

  /** Digits end where something else begins. */
  predicate Ends(post: string) { post == "" || !IsDigit(post[0]) }

  lemma {:induction false} DigitsEndAt(pre: string, digits: string, post: string, i: nat)
    requires AllDigits(digits) && Ends(post) && i <= |digits|
    ensures DigitsEnd(pre + digits + post, |pre| + i) == |pre| + |digits|
    decreases |digits| - i
  {
    var s := pre + digits + post;
    if i < |digits| {
      assert s[|pre| + i] == digits[i];
      DigitsEndAt(pre, digits, post, i + 1);
    } else if post != "" {
      assert s[|pre| + i] == post[0];
    }
  }

  lemma ExponentIs(pre: string, e: Exponent)
    requires e.Valid()
    ensures ExponentAt(pre + e.Text(), |pre|) == e.Value()
  {
    hide DigitsValue, ExponentAt, AllDigits;
    if e.Exponent? {
      ExponentReads(pre, [e.letter], e.sign, e.digits);
    } else {
      NoExponentPart(pre + e.Text(), |pre|);
    }
  }

  lemma ExponentReads(pre: string, letter: string, sign: string, digits: string)
    requires (letter == "e" || letter == "E") && IsSign(sign) && digits != "" && AllDigits(digits)
    ensures ExponentAt(pre + (letter + sign + digits), |pre|)
            == if sign == "-" then 0 - DigitsValue(digits) else DigitsValue(digits)
  {
    hide *;
    Slices(pre, letter, sign, digits);
    SignBeforeDigits(sign, digits);
    DigitsEndAt(pre + letter + sign, digits, "", 0);
    NothingEnds();
    var s := pre + (letter + sign + digits);
    ExponentUnfolds(s, |pre|, |pre + letter + sign|, |s|);
  }

  lemma NothingEnds()
    ensures Ends("")
  {
  }

  lemma Slices(a: string, b: string, c: string, d: string)
    requires |b| == 1 && d != ""
    ensures var s := a + (b + c + d);
            && s == a + b + c + d + "" && s[|a|] == b[0] && s[|a| + 1..] == c + d && s[|a| + 1] == (c + d)[0]
            && s[|a + b + c|..|s|] == d && |a + b + c| == |a| + 1 + |c|
  {
  }

  lemma ExponentUnfolds(s: string, i: nat, j: nat, k: nat)
    requires i + 1 <= j < k <= |s| && (s[i] == 'e' || s[i] == 'E')
    requires j == i + 1 + SignLength(s[i + 1..]) && k == DigitsEnd(s, j)
    ensures AllDigits(s[j..k])
    ensures ExponentAt(s, i) == if s[i + 1] == '-' then 0 - DigitsValue(s[j..k]) else DigitsValue(s[j..k])
  {
    hide DigitsValue, DigitsEnd, SignLength;
  }

  lemma NoExponentPart(s: string, i: nat)
    requires i == |s|
    ensures ExponentAt(s, i) == 0
  {
  }

  lemma SignBeforeDigits(sign: string, digits: string)
    requires IsSign(sign) && digits != "" && AllDigits(digits)
    ensures SignLength(sign + digits) == |sign| && ((sign + digits)[0] == '-' <==> sign == "-")
  {
    if sign == "" { assert (sign + digits)[0] == digits[0]; }
  }

  // ---------------------------------------------------------------- numbers

  lemma SignOf(n: Number, rest: string)
    requires n.Valid()
    ensures SignLength(n.Text() + rest) == |n.sign|
    ensures n.sign != "" ==> n.Text()[0] == n.sign[0]
  {
    var t := n.Text();
    if n.sign == "" {
      if n.whole != "" {
        assert t[0] == n.whole[0];
      } else {
        assert t[0] == '.';
      }
    }
  }

  /** What Strtod finds at each place of a text. */
  ghost predicate HasParts(s: string, n: Number, j: nat, k: nat)
    requires n.Valid()
  {
    && |n.sign| <= j <= k <= |s|
    && SignLength(s) == |n.sign| && DigitsEnd(s, |n.sign|) == j && s[|n.sign|..j] == n.whole
    && (n.sign != "" ==> s[0] == n.sign[0])
    && (if n.point then j < |s| && s[j] == '.' && DigitsEnd(s, j + 1) == k && j < k && s[j + 1..k] == n.fraction
        else k == j && (j < |s| ==> s[j] != '.'))
    && ExponentAt(s, k) == n.exponent.Value()
  }

  /** The text before the exponent. */
  function Front(n: Number): string { n.sign + n.whole + (if n.point then "." + n.fraction else "") }

  lemma WholePart(n: Number)
    requires n.Valid()
    ensures var (s, j) := (n.Text(), |n.sign| + |n.whole|);
            && DigitsEnd(s, |n.sign|) == j && s[|n.sign|..j] == n.whole
            && (if n.point then j < |s| && s[j] == '.' else j == |Front(n)| && (j < |s| ==> s[j] != '.'))
  {
    hide DigitsEnd, DigitsValue, AllDigits;
    var tail := n.exponent.Text();
    var middle := if n.point then "." + n.fraction else "";
    Regroup(n.sign + n.whole, middle, tail);
    if n.point {
      assert (middle + tail)[0] == '.';
    } else {
      assert middle + tail == tail;
    }
    DigitsBetween(n.sign, n.whole, middle + tail);
  }

  lemma Regroup(a: string, b: string, c: string)
    ensures a + b + c == a + (b + c)
  {
  }

  lemma DigitsBetween(a: string, b: string, c: string)
    requires AllDigits(b) && Ends(c)
    ensures var (s, j) := (a + b + c, |a| + |b|);
            DigitsEnd(s, |a|) == j && s[|a|..j] == b && (if c == "" then j == |s| else j < |s| && s[j] == c[0])
  {
    hide DigitsEnd;
    DigitsEndAt(a, b, c, 0);
  }

  lemma FractionPart(n: Number)
    requires n.Valid() && n.point
    ensures var (s, j, k) := (n.Text(), |n.sign| + |n.whole|, |Front(n)|);
            j < k <= |s| && DigitsEnd(s, j + 1) == k && s[j + 1..k] == n.fraction
  {
    hide DigitsEnd, DigitsValue;
    var (s, tail) := (n.Text(), n.exponent.Text());
    var head := n.sign + n.whole + ".";
    assert s == head + n.fraction + tail;
    DigitsEndAt(head, n.fraction, tail, 0);
  }

  lemma Parts(n: Number)
    requires n.Valid()
    ensures HasParts(n.Text(), n, |n.sign| + |n.whole|, |Front(n)|)
  {
    hide DigitsEnd, ExponentAt, SignLength, DigitsValue, AllDigits;
    var s := n.Text();
    WholePart(n);
    SignOf(n, "");
    assert s + "" == s;
    if n.point { FractionPart(n); }
    assert s == Front(n) + n.exponent.Text();
    ExponentIs(Front(n), n.exponent);
  }

  lemma StrtodOfParts(s: string, n: Number, j: nat, k: nat)
    requires n.Valid() && HasParts(s, n, j, k)
    ensures AllDigits(n.whole + n.fraction)
    ensures var m := DigitsValue(n.whole + n.fraction);
            Strtod(s) == Some(Scale(if n.sign == "-" then 0 - m else m, n.exponent.Value() - |n.fraction|))
  {
    hide DigitsEnd, ExponentAt, SignLength, DigitsValue, Scale;
    if !n.point { assert n.whole + n.fraction == n.whole; }
  }

  /** Every number reads as what it is worth. */
  lemma StrtodOfNumber(n: Number)
    requires n.Valid()
    ensures Strtod(n.Text()) == Some(n.Worth())
  {
    hide Strtod, HasParts, DigitsValue, Scale, TenTo, Pow10;
    Parts(n);
    StrtodOfParts(n.Text(), n, |n.sign| + |n.whole|, |Front(n)|);
    DigitsJoin(n.whole, n.fraction);
    var m: int := DigitsValue(n.whole + n.fraction);
    var minus := n.sign == "-";
    var (a, b, l, x) := (DigitsValue(n.whole), DigitsValue(n.fraction), |n.fraction|, n.exponent.Value());
    ScaledWorth(m, a, b, l, x, minus);
    var worth := (if minus then -1.0 else 1.0) * (a as real + b as real * TenTo(0 - l)) * TenTo(x);
    assert worth == n.Worth();
    var mantissa: int := if minus then 0 - m else m;
    assert Scale(mantissa, x - l) == worth;
  }

  lemma ScaledWorth(m: nat, a: nat, b: nat, l: nat, x: int, minus: bool)
    requires m == a * Pow10(l) + b
    ensures Scale(if minus then 0 - m else m, x - l)
            == (if minus then -1.0 else 1.0) * (a as real + b as real * TenTo(0 - l)) * TenTo(x)
  {
    hide Scale, TenTo, Pow10;
    ScaleIs(if minus then 0 - m else m, x - l);
    Pow10IsTenTo(l);
    TenToAdd(x, l);
    Lifted(a, Pow10(l));
    var (up, down, p) := (TenTo(l), TenTo(0 - l), TenTo(x));
    assert m as real == a as real * up + b as real;
    Shifted(a as real, b as real, up, down, p);
  }

  /** Moving the point. */
  lemma Shifted(a: real, b: real, up: real, down: real, p: real)
    requires up * down == 1.0
    ensures (a * up + b) * (p * down) == 1.0 * (a + b * down) * p
    ensures (0.0 - (a * up + b)) * (p * down) == -1.0 * (a + b * down) * p
  {
    assert a * up * (p * down) == a * p * (up * down);
    assert b * (p * down) == b * down * p;
    var (u, v) := ((a * up + b) * (p * down), (a + b * down) * p);
    assert u == v;
    assert (0.0 - (a * up + b)) * (p * down) == 0.0 - u;
    assert -1.0 * (a + b * down) * p == 0.0 - v;
  }

  // ---------------------------------------------------------------- numbers in a document

  /** What follows a number: not a digit, a point or the letter of an exponent. */
  predicate Follows(rest: string) {
    rest != "" ==> !IsDigit(rest[0]) && rest[0] != '.' && rest[0] != 'e' && rest[0] != 'E'
  }

  /** All characters behind the sign belong to the number. */
  lemma AllNumberChars(n: Number, rest: string, i: nat)
    requires n.Valid() && |n.sign| <= i < |n.Text()|
    ensures IsNumberChar(n.Text() + rest, i)
  {
    var (front, e) := (Front(n), n.exponent);
    var s := n.Text() + rest;
    assert s == front + (e.Text() + rest);
    if i < |front| {
      assert s[i] == front[i];
      if i < |n.sign| + |n.whole| {
        assert s[i] == n.whole[i - |n.sign|];
      } else if i > |n.sign| + |n.whole| {
        assert s[i] == n.fraction[i - |n.sign| - |n.whole| - 1];
      }
    } else {
      var k := i - |front|;
      assert s[i] == e.Text()[k] && (k > 0 ==> s[i - 1] == e.Text()[k - 1]);
      if k > |e.sign| { assert s[i] == e.digits[k - 1 - |e.sign|]; }
    }
  }

  /** And the text that follows does not. */
  lemma NoNumberChar(n: Number, rest: string)
    requires n.Valid() && Follows(rest) && rest != ""
    ensures !IsNumberChar(n.Text() + rest, |n.Text()|)
  {
    var (s, k) := (n.Text() + rest, |n.Text()|);
    assert s[k] == rest[0];
    LastIsNoLetter(n);
    assert k > 0 && s[k - 1] == n.Text()[k - 1];
  }

  lemma LastIsNoLetter(n: Number)
    requires n.Valid()
    ensures var t := n.Text(); t != "" && t[|t| - 1] != 'e' && t[|t| - 1] != 'E'
  {
    var (t, front, e) := (n.Text(), Front(n), n.exponent);
    assert t == front + e.Text();
    if e.Exponent? {
      assert t[|t| - 1] == e.digits[|e.digits| - 1];
    } else if n.point {
      if n.fraction != "" { assert t[|t| - 1] == n.fraction[|n.fraction| - 1]; }
    } else {
      assert t[|t| - 1] == n.whole[|n.whole| - 1];
    }
  }

  lemma {:induction false} NumberEndIs(s: string, i: nat, end: nat)
    requires i <= end <= |s| && (forall k :: i <= k < end ==> IsNumberChar(s, k))
    requires end < |s| ==> !IsNumberChar(s, end)
    ensures NumberEnd(s, i) == end
    decreases end - i
  {
    if i < end { NumberEndIs(s, i + 1, end); }
  }

  lemma SomeDigit(n: Number, rest: string)
    requires n.Valid()
    ensures HasDigit(n.Text() + rest, |n.sign|, |n.Text()|)
  {
    var s := n.Text() + rest;
    if n.whole != "" {
      assert s[|n.sign|] == n.whole[0];
    } else {
      assert s[|n.sign| + 1] == n.fraction[0];
    }
  }

  /** A number in a document, whatever follows it, is read as what it is worth if a double can hold that, and is an
      error otherwise. */
  lemma NumberReads(n: Number, rest: string)
    requires n.Valid() && Follows(rest)
    ensures ParseNumber(n.Text() + rest)
            == if IsFinite(n.Worth()) then Ok(Num(n.Worth()), rest) else Fail("invalid number", rest)
  {
    hide Strtod, NumberEnd, HasDigit, IsFinite, SignLength, IsNumberChar;
    var (s, end) := (n.Text() + rest, |n.Text()|);
    SignOf(n, rest);
    SignFitsText(n);
    forall k: nat | |n.sign| <= k < end ensures IsNumberChar(s, k) { AllNumberChars(n, rest, k); }
    if rest != "" { NoNumberChar(n, rest); }
    NumberEndIs(s, |n.sign|, end);
    SomeDigit(n, rest);
    assert s[..end] == n.Text() && s[end..] == rest;
    StrtodOfNumber(n);
  }

  lemma SignFitsText(n: Number)
    ensures |n.sign| <= |n.Text()|
  {
  }

  /** For instance. */
  lemma TwelveAndAHalf()
    ensures Strtod("12.5") == Some(12.5) && Strtod("-125E-1") == Some(-12.5)
  {
    hide Strtod;
    var a := Number("", "12", true, "5", NoExponent);
    var b := Number("-", "125", false, "", Exponent('E', "-", "1"));
    assert a.Text() == "12.5" && b.Text() == "-125E-1";
    assert DigitsValue("1") == 1 && DigitsValue("5") == 5;
    assert DigitsValue("12") == 12 by { assert "12"[..1] == "1"; }
    assert DigitsValue("125") == 125 by { assert "125"[..2] == "12"; }
    assert TenTo(-1) == 0.1 && TenTo(0) == 1.0;
    StrtodOfNumber(a);
    StrtodOfNumber(b);
  }
}

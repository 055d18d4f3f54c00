/** The handful of PHP string functions the library leans on: `trim`,
    `explode`, integer formatting, the coercion of a string argument to an
    `int` parameter, and `is_numeric`. Each is written out so that the
    models built on top of them inherit PHP's edge cases. */
module Strings {
  import opened Errors

  /** The characters PHP's `trim` strips by default: " \t\n\r\0\x0B". */
  predicate IsTrimChar(c: char) {
    c == ' ' || c == '\t' || c == '\n' || c == '\r' || c == '\0' || c == '\U{0B}'
  }

  /** The whitespace PHP accepts around a numeric string: " \t\n\r\v\f". */
  predicate IsNumericSpace(c: char) {
    c == ' ' || c == '\t' || c == '\n' || c == '\r' || c == '\U{0B}' || c == '\U{0C}'
  }

  predicate IsDigit(c: char) {
    '0' <= c <= '9'
  }

  predicate AllDigits(s: string) {
    forall i :: 0 <= i < |s| ==> IsDigit(s[i])
  }

  /** Drops the leading trim characters: the result is the longest suffix
      that does not start with one. */
  function TrimLeft(s: string): (r: string)
    ensures |r| <= |s| && r == s[|s| - |r|..]
    ensures forall k :: 0 <= k < |s| - |r| ==> IsTrimChar(s[k])
    ensures |r| > 0 ==> !IsTrimChar(r[0])
  {
    if |s| > 0 && IsTrimChar(s[0]) then TrimLeft(s[1..]) else s
  }

  /** Drops the trailing trim characters: the result is the longest prefix
      that does not end with one. */
  function TrimRight(s: string): (r: string)
    ensures |r| <= |s| && r == s[..|r|]
    ensures forall k :: |r| <= k < |s| ==> IsTrimChar(s[k])
    ensures |r| > 0 ==> !IsTrimChar(r[|r| - 1])
  {
    if |s| > 0 && IsTrimChar(s[|s| - 1]) then TrimRight(s[..|s| - 1]) else s
  }

  /** PHP `trim($s)`. */
  function Trim(s: string): (r: string)
    ensures |r| <= |s|
    ensures |r| > 0 ==> !IsTrimChar(r[0]) && !IsTrimChar(r[|r| - 1])
  {
    TrimRight(TrimLeft(s))
  }

  /** `trim` yields the empty string exactly when every character is a trim
      character. */
  lemma TrimEmptyIffBlank(s: string)
    ensures Trim(s) == "" <==> forall k :: 0 <= k < |s| ==> IsTrimChar(s[k])
  {
    var l := TrimLeft(s);
    if Trim(s) == "" {
      assert |l| == 0;
    } else {
      assert |l| > 0 && !IsTrimChar(l[0]);
      assert s[|s| - |l|] == l[0];
    }
  }

  /** Trimming is idempotent. */
  lemma TrimIdempotent(s: string)
    ensures Trim(Trim(s)) == Trim(s)
  {
    var r := Trim(s);
    if |r| > 0 {
      assert TrimLeft(r) == r;
      assert TrimRight(r) == r;
    }
  }

  /** `trim` leaves a string alone that neither starts nor ends with a
      trim character. */
  lemma TrimUntrimmed(s: string)
    requires |s| > 0 && !IsTrimChar(s[0]) && !IsTrimChar(s[|s| - 1])
    ensures Trim(s) == s
  {
    assert TrimLeft(s) == s;
    assert TrimRight(s) == s;
  }

  /** `trim` removes a line's terminating newline and nothing of a line
      that neither starts nor ends with a trim character. */
  lemma TrimLine(s: string)
    requires |s| > 0 && !IsTrimChar(s[0]) && !IsTrimChar(s[|s| - 1])
    ensures Trim(s + "\n") == s
  {
    var line := s + "\n";
    assert line[0] == s[0];
    assert TrimLeft(line) == line;
    assert line[..|line| - 1] == s;
    assert TrimRight(s) == s;
  }

  /** PHP `explode($d, $s)` for a non-empty delimiter: the pieces between
      the leftmost non-overlapping occurrences of `d`. */
  function Split(s: string, d: string): (parts: seq<string>)
    requires |d| > 0
    ensures |parts| >= 1
    decreases |s|
  {
    if |s| < |d| then [s]
    else if s[..|d|] == d then [""] + Split(s[|d|..], d)
    else
      var rest := Split(s[1..], d);
      [[s[0]] + rest[0]] + rest[1..]
  }

  /** PHP `implode($d, $parts)`. */
  function Join(parts: seq<string>, d: string): string {
    if |parts| == 0 then ""
    else if |parts| == 1 then parts[0]
    else parts[0] + d + Join(parts[1..], d)
  }

  /** The join of three pieces, written out. */
  lemma JoinThree(a: string, b: string, c: string, d: string)
    ensures Join([a, b, c], d) == a + d + b + d + c
  {
    assert [a, b, c][1..] == [b, c];
    assert [b, c][1..] == [c];
    assert Join([b, c], d) == b + d + c;
    assert Join([a, b, c], d) == a + d + (b + d + c);
  }

  /** Splitting and joining again with the same delimiter restores the
      original string. */
  lemma {:induction false} JoinSplit(s: string, d: string)
    requires |d| > 0
    ensures Join(Split(s, d), d) == s
    decreases |s|
  {
    if |s| < |d| {
      assert Split(s, d) == [s];
    } else if s[..|d|] == d {
      var tail := Split(s[|d|..], d);
      assert Split(s, d) == [""] + tail;
      JoinSplit(s[|d|..], d);
      JoinCons("", tail, d);
      assert s == d + s[|d|..];
    } else {
      var rest := Split(s[1..], d);
      assert Split(s, d) == [[s[0]] + rest[0]] + rest[1..];
      JoinSplit(s[1..], d);
      JoinExtendHead([s[0]], rest, d);
      assert s == [s[0]] + s[1..];
    }
  }

  /** Joining a piece in front of at least one more. */
  lemma JoinCons(x: string, rest: seq<string>, d: string)
    requires |rest| >= 1
    ensures Join([x] + rest, d) == x + d + Join(rest, d)
  {
    assert ([x] + rest)[1..] == rest;
  }

  /** Extending the first piece extends the join by the same prefix. */
  lemma JoinExtendHead(c: string, rest: seq<string>, d: string)
    requires |rest| >= 1
    ensures Join([c + rest[0]] + rest[1..], d) == c + Join(rest, d)
  {
    if |rest| > 1 {
      JoinCons(c + rest[0], rest[1..], d);
      JoinCons(rest[0], rest[1..], d);
      assert [rest[0]] + rest[1..] == rest;
    }
  }

  /** A string with no occurrence of the one-character delimiter is a
      single piece. */
  lemma {:induction false} SplitWithoutDelimiter(s: string, c: char)
    requires c !in s
    ensures Split(s, [c]) == [s]
    decreases |s|
  {
    if |s| >= 1 {
      assert s[..1] == [s[0]];
      assert s[0] in s;
      assert s[1..] == s[1..];
      assert forall x :: x in s[1..] ==> x in s;
      SplitWithoutDelimiter(s[1..], c);
      assert [s[0]] + s[1..] == s;
    }
  }

  /** A piece free of the delimiter, followed by the delimiter, is split
      off as the first piece. */
  lemma {:induction false} SplitAfterPiece(p: string, c: char, x: string)
    requires c !in p
    ensures Split(p + [c] + x, [c]) == [p] + Split(x, [c])
    decreases |p|
  {
    var s := p + [c] + x;
    if |p| == 0 {
      assert s[..1] == [c];
      assert s[1..] == x;
    } else {
      assert s[..1] == [p[0]];
      assert p[0] in p;
      assert forall y :: y in p[1..] ==> y in p;
      SplitAfterPiece(p[1..], c, x);
      assert s[1..] == p[1..] + [c] + x;
      assert [p[0]] + p[1..] == p;
    }
  }

  /** Joining delimiter-free pieces and splitting again gives the pieces
      back: with `JoinSplit`, `explode` and `implode` are inverse on a
      one-character delimiter. */
  lemma {:induction false} SplitJoin(parts: seq<string>, c: char)
    requires |parts| >= 1
    requires forall i :: 0 <= i < |parts| ==> c !in parts[i]
    ensures Split(Join(parts, [c]), [c]) == parts
    decreases |parts|
  {
    if |parts| == 1 {
      SplitWithoutDelimiter(parts[0], c);
    } else {
      SplitJoin(parts[1..], c);
      SplitAfterPiece(parts[0], c, Join(parts[1..], [c]));
      assert [parts[0]] + parts[1..] == parts;
    }
  }

  /** No piece of a split on a one-character delimiter contains it. */
  lemma {:induction false} SplitPiecesFree(s: string, c: char)
    ensures forall i :: 0 <= i < |Split(s, [c])| ==> c !in Split(s, [c])[i]
    decreases |s|
  {
    if |s| >= 1 {
      SplitPiecesFree(s[1..], c);
      if s[..1] != [c] {
        assert s[0] != c;
      }
    }
  }

  function DigitChar(d: nat): (c: char)
    requires d < 10
    ensures IsDigit(c) && c as int - '0' as int == d
  {
    ('0' as int + d) as char
  }

  function DigitValue(c: char): nat
    requires IsDigit(c)
  {
    c as int - '0' as int
  }

  /** Decimal rendering of a natural number, as PHP's string interpolation
      of an int produces it (no leading zeros). */
  function NatToString(n: nat): (s: string)
    ensures |s| >= 1 && AllDigits(s)
    ensures |s| > 1 ==> s[0] != '0'
    decreases n
  {
    if n < 10 then [DigitChar(n)] else NatToString(n / 10) + [DigitChar(n % 10)]
  }

  /** Decimal rendering of an integer. */
  function IntToString(i: int): string {
    if i < 0 then "-" + NatToString(-i) else NatToString(i)
  }

  /** The value of a string of decimal digits. */
  function DigitsValue(s: string): nat
    requires AllDigits(s)
  {
    if |s| == 0 then 0 else DigitsValue(s[..|s| - 1]) * 10 + DigitValue(s[|s| - 1])
  }

  lemma {:induction false} DigitsValueOfNatToString(n: nat)
    ensures DigitsValue(NatToString(n)) == n
    decreases n
  {
    if n >= 10 {
      DigitsValueOfNatToString(n / 10);
      var s := NatToString(n);
      assert s[..|s| - 1] == NatToString(n / 10);
    }
  }

  /** Distinct naturals render differently. */
  lemma NatToStringInjective(m: nat, n: nat)
    requires NatToString(m) == NatToString(n)
    ensures m == n
  {
    DigitsValueOfNatToString(m);
    DigitsValueOfNatToString(n);
  }

  function DropNumericSpaceLeft(s: string): (r: string)
    ensures |r| <= |s| && r == s[|s| - |r|..]
    ensures |r| > 0 ==> !IsNumericSpace(r[0])
  {
    if |s| > 0 && IsNumericSpace(s[0]) then DropNumericSpaceLeft(s[1..]) else s
  }

  predicate AllNumericSpace(s: string) {
    forall i :: 0 <= i < |s| ==> IsNumericSpace(s[i])
  }

  /** The length of the longest run of digits at the start of `s`. */
  function DigitRun(s: string): (n: nat)
    ensures n <= |s| && AllDigits(s[..n])
    ensures n < |s| ==> !IsDigit(s[n])
  {
    if |s| > 0 && IsDigit(s[0]) then
      var n := 1 + DigitRun(s[1..]);
      assert s[..n] == [s[0]] + s[1..][..n - 1];
      n
    else 0
  }

  /** A digit run of length `n` at the start of `s` followed by a non-digit
      is exactly what `DigitRun` measures. */
  lemma {:induction false} DigitRunPrefix(s: string, n: nat)
    requires n <= |s| && AllDigits(s[..n]) && (n < |s| ==> !IsDigit(s[n]))
    ensures DigitRun(s) == n
    decreases n
  {
    if n > 0 {
      assert s[1..][..n - 1] == s[1..n];
      DigitRunPrefix(s[1..], n - 1);
    }
  }

  lemma {:induction false} DigitRunOfDigits(s: string)
    requires AllDigits(s)
    ensures DigitRun(s) == |s|
    decreases |s|
  {
    if |s| > 0 {
      DigitRunOfDigits(s[1..]);
    }
  }

  // ---------------------------------------------------------------------
  // Numeric strings

  /** The bounds of PHP's 64-bit integers. */
  const PHP_INT_MAX: int := 0x7FFF_FFFF_FFFF_FFFF
  const PHP_INT_MIN: int := -0x8000_0000_0000_0000

  /** 2^63, the float just above PHP_INT_MAX: a number fits in an int when
      it is at least PHP_INT_MIN and below this. */
  const TWO_TO_63: nat := 0x8000_0000_0000_0000

  /** A decimal number as PHP's numeric-string scanner reads it: its sign,
      the digits before and after the decimal point, and the exponent. */
  datatype Decimal = Decimal(negative: bool, whole: string, fraction: string, exponent: int)

  predicate WellFormed(d: Decimal) {
    AllDigits(d.whole) && AllDigits(d.fraction)
  }

  /** The exponent at the start of `s` ('e' or 'E', an optional sign and
      at least one digit) as its value and its length; (0, 0) when there is
      none, an 'e' without digits being left to the text after the
      number. */
  function ExponentPrefix(s: string): (r: (int, nat))
    ensures r.1 <= |s|
    ensures r.1 > 0 ==> s[0] == 'e' || s[0] == 'E'
    ensures r.1 == 0 ==> r.0 == 0
  {
    if |s| > 0 && (s[0] == 'e' || s[0] == 'E') then
      var j: nat := if |s| > 1 && (s[1] == '-' || s[1] == '+') then 2 else 1;
      var n := DigitRun(s[j..]);
      if n == 0 then (0, 0)
      else
        var magnitude: int := DigitsValue(s[j..][..n]);
        (if j == 2 && s[1] == '-' then -magnitude else magnitude, j + n)
    else (0, 0)
  }

  /** `r` is a tail of `s`. */
  predicate IsSuffix(r: string, s: string) {
    |r| <= |s| && r == s[|s| - |r|..]
  }

  lemma SuffixOfTail(r: string, u: string, m: nat)
    requires m <= |u| && IsSuffix(r, u[m..])
    ensures IsSuffix(r, u)
  {
    assert u[m..][|u[m..]| - |r|..] == u[|u| - |r|..];
  }

  /** The number a string starts with and the text after it, read as PHP 8
      reads numeric strings: leading whitespace, an optional sign, digits
      with an optional '.' and further digits (at least one digit in all),
      and an optional exponent. None when the string does not start with a
      number. */
  function ScanNumber(s: string): (r: Option<(Decimal, string)>)
    ensures r.Some? ==> WellFormed(r.value.0) && |r.value.0.whole| + |r.value.0.fraction| > 0
    ensures r.Some? ==> |r.value.1| < |s| && IsSuffix(r.value.1, s)
  {
    var t := DropNumericSpaceLeft(s);
    if |t| > 0 && (t[0] == '-' || t[0] == '+') then
      var r := ScanDigits(t[1..], t[0] == '-');
      if r.Some? then SuffixOfTail(r.value.1, t, 1); SuffixOfTail(r.value.1, s, |s| - |t|); r
      else r
    else
      var r := ScanDigits(t, false);
      if r.Some? then SuffixOfTail(r.value.1, s, |s| - |t|); r
      else r
  }

  /** The unsigned part of a number: the digits before the point, then the
      rest. */
  function ScanDigits(u: string, negative: bool): (r: Option<(Decimal, string)>)
    ensures r.Some? ==> WellFormed(r.value.0) && |r.value.0.whole| + |r.value.0.fraction| > 0
    ensures r.Some? ==> |r.value.1| < |u| && IsSuffix(r.value.1, u)
  {
    var m := DigitRun(u);
    var r := ScanFraction(negative, u[..m], u[m..]);
    if r.Some? then SuffixOfTail(r.value.1, u, m); r
    else r
  }

  /** The optional '.' and digits after the whole digits; a number needs a
      digit on one side of the point. */
  function ScanFraction(negative: bool, whole: string, afterWhole: string): (r: Option<(Decimal, string)>)
    requires AllDigits(whole)
    ensures r.Some? ==> WellFormed(r.value.0) && r.value.0.whole == whole && |whole| + |r.value.0.fraction| > 0
    ensures r.Some? ==> IsSuffix(r.value.1, afterWhole) && |r.value.1| < |afterWhole| + |whole|
  {
    if |afterWhole| > 0 && afterWhole[0] == '.' then
      var f := DigitRun(afterWhole[1..]);
      if |whole| == 0 && f == 0 then None
      else
        var rest := afterWhole[1 + f..];
        var r := ScanExponent(negative, whole, afterWhole[1..][..f], rest);
        SuffixOfTail(r.value.1, afterWhole, 1 + f);
        r
    else if |whole| == 0 then None
    else ScanExponent(negative, whole, "", afterWhole)
  }

  /** The optional exponent, then the text left after the number. */
  function ScanExponent(negative: bool, whole: string, fraction: string, rest: string): (r: Option<(Decimal, string)>)
    requires AllDigits(whole) && AllDigits(fraction)
    ensures r.Some? && WellFormed(r.value.0)
    ensures r.value.0.whole == whole && r.value.0.fraction == fraction && r.value.0.negative == negative
    ensures IsSuffix(r.value.1, rest)
  {
    var e := ExponentPrefix(rest);
    assert rest[e.1..] == rest[|rest| - |rest[e.1..]|..];
    Some((Decimal(negative, whole, fraction, e.0), rest[e.1..]))
  }

  function Pow10(n: nat): (r: nat)
    ensures r >= 1
  {
    if n == 0 then 1 else 10 * Pow10(n - 1)
  }

  function Zeros(n: nat): (r: string)
    ensures |r| == n && AllDigits(r)
  {
    seq(n, _ => '0')
  }

  predicate AllZeros(s: string) {
    forall i :: 0 <= i < |s| ==> s[i] == '0'
  }

  /** The digits before the point once the exponent has moved it, padded
      with zeros when it moves past the last digit. */
  function IntegerPart(d: Decimal): (r: string)
    requires WellFormed(d)
    ensures AllDigits(r)
  {
    var digits := d.whole + d.fraction;
    var point := |d.whole| + d.exponent;
    if point <= 0 then "" else if point <= |digits| then digits[..point] else digits + Zeros(point - |digits|)
  }

  /** The digits after the point once the exponent has moved it. */
  function FractionPart(d: Decimal): string {
    var digits := d.whole + d.fraction;
    var point := |d.whole| + d.exponent;
    if point <= 0 then digits else if point <= |digits| then digits[point..] else ""
  }

  /** The number truncated toward zero, as PHP converts a float to an int:
      the digits after the point are dropped. */
  function Truncated(d: Decimal): int
    requires WellFormed(d)
  {
    var magnitude: int := DigitsValue(IntegerPart(d));
    if d.negative then -magnitude else magnitude
  }

  /** Whether the number lies in PHP's integer range: its magnitude is
      below 2^63, or it is exactly -2^63. */
  predicate FitsInt(d: Decimal)
    requires WellFormed(d)
  {
    var magnitude := DigitsValue(IntegerPart(d));
    magnitude < TWO_TO_63 || (d.negative && magnitude == TWO_TO_63 && AllZeros(FractionPart(d)))
  }

  /** The coercion of a string argument to an `int` parameter in PHP 8's
      coercive typing mode: the number the string starts with, truncated
      toward zero. Text after the number only draws a warning. A string
      that does not start with a number, or whose number lies outside the
      64-bit range, is refused (a TypeError in the source). */
  function ParseInt(token: string): (r: Option<int>)
    ensures r.Some? ==> PHP_INT_MIN <= r.value <= PHP_INT_MAX
    ensures ScanNumber(token).None? ==> r.None?
    ensures ScanNumber(token).Some? ==> (r.Some? <==> FitsInt(ScanNumber(token).value.0))
  {
    match ScanNumber(token)
    case None => None
    case Some((d, _)) =>
      if FitsInt(d) then Some(Truncated(d)) else None
  }

  /** PHP's `(int)` cast of a string: the same number, where a string that
      does not start with a number gives 0 and a number outside the range
      saturates at the nearer bound. */
  function IntCast(s: string): (r: int)
    ensures PHP_INT_MIN <= r <= PHP_INT_MAX
  {
    match ScanNumber(s)
    case None => 0
    case Some((d, _)) =>
      if FitsInt(d) then Truncated(d) else if d.negative then PHP_INT_MIN else PHP_INT_MAX
  }

  /** The cast and the parameter coercion read the same number: they agree
      wherever the coercion succeeds, and where it refuses the cast gives 0
      (no number) or the bound on the number's side (out of range). */
  lemma IntCastAgreesWithParseInt(s: string)
    ensures ParseInt(s).Some? ==> IntCast(s) == ParseInt(s).value
    ensures ScanNumber(s).None? ==> ParseInt(s).None? && IntCast(s) == 0
    ensures ScanNumber(s).Some? && ParseInt(s).None? ==>
      IntCast(s) == (if ScanNumber(s).value.0.negative then PHP_INT_MIN else PHP_INT_MAX)
  {
  }

  /** `is_numeric` on a string: a number followed by nothing but
      whitespace. */
  predicate IsNumeric(s: string) {
    var r := ScanNumber(s);
    r.Some? && AllNumericSpace(r.value.1)
  }

  /** A string that starts with none of whitespace, a sign, a digit or a
      point holds no number. */
  lemma NoNumberAtOtherChar(s: string)
    requires |s| > 0 && !IsNumericSpace(s[0]) && !IsDigit(s[0]) && s[0] != '+' && s[0] != '-' && s[0] != '.'
    ensures ScanNumber(s).None? && ParseInt(s).None? && IntCast(s) == 0
  {
    assert DropNumericSpaceLeft(s) == s;
    assert DigitRun(s) == 0;
    assert s[0..] == s;
  }

  /** Text that cannot continue a number: it does not start with a digit,
      a '.' or an exponent letter. */
  predicate EndsNumber(rest: string) {
    |rest| == 0 || !(IsDigit(rest[0]) || rest[0] == '.' || rest[0] == 'e' || rest[0] == 'E')
  }

  function Magnitude(i: int): nat {
    if i < 0 then -i else i
  }

  /** The sign of a rendered integer is read off before its digits. */
  lemma ScanSigned(i: int, rest: string)
    ensures ScanNumber(IntToString(i) + rest) == ScanDigits(NatToString(Magnitude(i)) + rest, i < 0)
  {
    var digits := NatToString(Magnitude(i));
    if i < 0 {
      assert IntToString(i) + rest == "-" + (digits + rest);
      ScanMinus(digits + rest);
    } else {
      assert IntToString(i) + rest == digits + rest;
      assert (digits + rest)[0] == digits[0];
      ScanUnsigned(digits + rest);
    }
  }

  lemma ScanMinus(u: string)
    ensures ScanNumber("-" + u) == ScanDigits(u, true)
  {
    var s := "-" + u;
    assert DropNumericSpaceLeft(s) == s;
    assert s[1..] == u;
  }

  lemma ScanUnsigned(u: string)
    requires |u| > 0 && IsDigit(u[0])
    ensures ScanNumber(u) == ScanDigits(u, false)
  {
    assert DropNumericSpaceLeft(u) == u;
  }

  /** Digits followed by text that cannot continue them are a whole
      number with that text left over. */
  lemma ScanWhole(digits: string, rest: string, negative: bool)
    requires |digits| > 0 && AllDigits(digits) && EndsNumber(rest)
    ensures ScanDigits(digits + rest, negative) == Some((Decimal(negative, digits, "", 0), rest))
  {
    var u := digits + rest;
    assert u[..|digits|] == digits;
    DigitRunPrefix(u, |digits|);
    assert u[|digits|..] == rest;
  }

  /** A rendered integer followed by text that cannot continue it scans as
      that integer, with the text left over. */
  lemma ScanInteger(i: int, rest: string)
    requires EndsNumber(rest)
    ensures ScanNumber(IntToString(i) + rest) == Some((Decimal(i < 0, NatToString(Magnitude(i)), "", 0), rest))
  {
    ScanSigned(i, rest);
    ScanWhole(NatToString(Magnitude(i)), rest, i < 0);
  }

  /** The value of a scanned integer. */
  lemma IntegerValue(i: int)
    ensures var d := Decimal(i < 0, NatToString(Magnitude(i)), "", 0);
      WellFormed(d) && Truncated(d) == i && (FitsInt(d) <==> PHP_INT_MIN <= i <= PHP_INT_MAX)
  {
    var digits := NatToString(Magnitude(i));
    var d := Decimal(i < 0, digits, "", 0);
    DigitsValueOfNatToString(Magnitude(i));
    assert digits + "" == digits && digits[..|digits|] == digits;
    assert IntegerPart(d) == digits && FractionPart(d) == "";
  }

  /** An integer followed by text that cannot continue it coerces to that
      integer when PHP can hold it (the text only draws a warning) and is
      refused otherwise; the cast reads the same integer and saturates
      outside the range. */
  lemma ParseIntIgnoresTrailing(i: int, rest: string)
    requires EndsNumber(rest)
    ensures ParseInt(IntToString(i) + rest) == (if PHP_INT_MIN <= i <= PHP_INT_MAX then Some(i) else None)
    ensures IntCast(IntToString(i) + rest) ==
      (if i < PHP_INT_MIN then PHP_INT_MIN else if i > PHP_INT_MAX then PHP_INT_MAX else i)
  {
    ScanInteger(i, rest);
    IntegerValue(i);
  }

  /** Every integer PHP can hold coerces back to itself from its decimal
      rendering. */
  lemma ParseIntToString(i: int)
    requires PHP_INT_MIN <= i <= PHP_INT_MAX
    ensures ParseInt(IntToString(i)) == Some(i)
  {
    ParseIntIgnoresTrailing(i, "");
    assert IntToString(i) + "" == IntToString(i);
  }

  /** Every rendered integer is numeric, however large. */
  lemma IntToStringIsNumeric(i: int)
    ensures IsNumeric(IntToString(i))
  {
    ScanInteger(i, "");
    assert IntToString(i) + "" == IntToString(i);
  }

  /** The coercion and the cast of a string, given the number it starts
      with. */
  lemma ParseIntOfScan(s: string, d: Decimal, rest: string)
    requires ScanNumber(s) == Some((d, rest)) && WellFormed(d)
    ensures ParseInt(s) == (if FitsInt(d) then Some(Truncated(d)) else None)
    ensures IntCast(s) == (if FitsInt(d) then Truncated(d) else if d.negative then PHP_INT_MIN else PHP_INT_MAX)
  {
  }

  /** A float string with an exponent coerces to the integer it denotes:
      "1e3" is 1000. */
  lemma ParseIntExponent(m: nat, e: nat)
    requires m * Pow10(e) <= PHP_INT_MAX
    ensures ParseInt(NatToString(m) + "e" + NatToString(e)) == Some(m * Pow10(e))
    ensures IntCast(NatToString(m) + "e" + NatToString(e)) == m * Pow10(e)
  {
    var s := NatToString(m) + "e" + NatToString(e);
    var d := Decimal(false, NatToString(m), "", e);
    ScanExponentString(m, e);
    ExponentValue(m, e);
    ParseIntOfScan(s, d, "");
  }

  lemma ScanExponentString(m: nat, e: nat)
    ensures ScanNumber(NatToString(m) + "e" + NatToString(e)) == Some((Decimal(false, NatToString(m), "", e), ""))
  {
    var digits := NatToString(m);
    var exp := NatToString(e);
    var u := digits + ("e" + exp);
    assert digits + "e" + exp == u;
    assert u[0] == digits[0];
    ScanUnsigned(u);
    ScanExponentDigits(digits, exp);
    DigitsValueOfNatToString(e);
  }

  /** Digits, 'e' and digits are a number with that exponent and nothing
      left over. */
  lemma ScanExponentDigits(digits: string, exp: string)
    requires |digits| > 0 && AllDigits(digits) && |exp| > 0 && AllDigits(exp)
    ensures ScanDigits(digits + ("e" + exp), false) == Some((Decimal(false, digits, "", DigitsValue(exp)), ""))
  {
    var u := digits + ("e" + exp);
    assert u[..|digits|] == digits;
    DigitRunPrefix(u, |digits|);
    var afterWhole := u[|digits|..];
    assert afterWhole == "e" + exp;
    ExponentOfDigits(exp);
  }

  lemma ExponentOfDigits(exp: string)
    requires |exp| > 0 && AllDigits(exp)
    ensures ExponentPrefix("e" + exp) == (DigitsValue(exp), 1 + |exp|)
  {
    var s := "e" + exp;
    assert s[1..] == exp && IsDigit(s[1]);
    DigitRunOfDigits(exp);
    assert exp[..|exp|] == exp;
  }

  /** m followed by e zeros, as the exponent places them. */
  lemma ExponentValue(m: nat, e: nat)
    requires m * Pow10(e) <= PHP_INT_MAX
    ensures var d := Decimal(false, NatToString(m), "", e);
      WellFormed(d) && FitsInt(d) && Truncated(d) == m * Pow10(e)
  {
    var digits := NatToString(m);
    var d := Decimal(false, digits, "", e);
    assert digits + "" == digits;
    if e == 0 {
      assert digits[..|digits|] == digits;
    }
    assert IntegerPart(d) == digits + Zeros(e) by {
      if e == 0 {
        assert Zeros(0) == "";
      }
    }
    DigitsValueOfNatToString(m);
    DigitsValueZeros(digits, e);
  }

  /** Appending zeros multiplies by a power of ten. */
  lemma {:induction false} DigitsValueZeros(a: string, n: nat)
    requires AllDigits(a)
    ensures AllDigits(a + Zeros(n)) && DigitsValue(a + Zeros(n)) == DigitsValue(a) * Pow10(n)
    decreases n
  {
    if n == 0 {
      assert a + Zeros(0) == a;
    } else {
      var b := a + Zeros(n - 1);
      DigitsValueZeros(a, n - 1);
      assert a + Zeros(n) == b + "0";
      DigitsValueAppendZero(b);
      ShiftPow10(DigitsValue(a), n);
    }
  }

  lemma ShiftPow10(x: nat, n: nat)
    requires n > 0
    ensures x * Pow10(n - 1) * 10 == x * Pow10(n)
  {
    var p := Pow10(n - 1);
    assert Pow10(n) == 10 * p;
    assert x * p * 10 == x * (10 * p);
  }

  lemma DigitsValueAppendZero(b: string)
    requires AllDigits(b)
    ensures AllDigits(b + "0") && DigitsValue(b + "0") == DigitsValue(b) * 10
  {
    var c := b + "0";
    assert c[..|c| - 1] == b;
  }

  /** A float string with a fractional part coerces to its integer part,
      truncated toward zero: "4730.0" and "4730.9" are 4730, "-2.5" is
      -2. */
  lemma ParseIntFraction(i: int, fraction: string)
    requires AllDigits(fraction)
    requires PHP_INT_MIN < i <= PHP_INT_MAX
    ensures ParseInt(IntToString(i) + "." + fraction) == Some(i)
    ensures IntCast(IntToString(i) + "." + fraction) == i
  {
    var s := IntToString(i) + "." + fraction;
    var d := Decimal(i < 0, NatToString(Magnitude(i)), fraction, 0);
    ScanFractionString(i, fraction);
    FractionValue(i, fraction);
    ParseIntOfScan(s, d, "");
  }

  lemma ScanFractionString(i: int, fraction: string)
    requires AllDigits(fraction)
    ensures ScanNumber(IntToString(i) + "." + fraction) == Some((Decimal(i < 0, NatToString(Magnitude(i)), fraction, 0), ""))
  {
    var digits := NatToString(Magnitude(i));
    var u := digits + ("." + fraction);
    if i < 0 {
      assert IntToString(i) + "." + fraction == "-" + u;
      ScanMinus(u);
    } else {
      assert IntToString(i) + "." + fraction == u;
      assert u[0] == digits[0];
      ScanUnsigned(u);
    }
    ScanFractionDigits(digits, fraction, i < 0);
  }

  /** Dropping the fraction of an integer's digits gives the integer. */
  lemma FractionValue(i: int, fraction: string)
    requires AllDigits(fraction)
    requires PHP_INT_MIN < i <= PHP_INT_MAX
    ensures var d := Decimal(i < 0, NatToString(Magnitude(i)), fraction, 0);
      WellFormed(d) && FitsInt(d) && Truncated(d) == i
  {
    var digits := NatToString(Magnitude(i));
    var d := Decimal(i < 0, digits, fraction, 0);
    assert (digits + fraction)[..|digits|] == digits;
    assert IntegerPart(d) == digits;
    DigitsValueOfNatToString(Magnitude(i));
  }

  /** Digits, '.' and digits are a number with that fraction and nothing
      left over. */
  lemma ScanFractionDigits(digits: string, fraction: string, negative: bool)
    requires |digits| > 0 && AllDigits(digits) && AllDigits(fraction)
    ensures ScanDigits(digits + ("." + fraction), negative) == Some((Decimal(negative, digits, fraction, 0), ""))
  {
    var u := digits + ("." + fraction);
    assert u[..|digits|] == digits;
    DigitRunPrefix(u, |digits|);
    var afterWhole := u[|digits|..];
    assert afterWhole == "." + fraction && afterWhole[1..] == fraction;
    DigitRunOfDigits(fraction);
    assert fraction[..|fraction|] == fraction;
    assert afterWhole[1 + |fraction|..] == "";
  }

  predicate StartsWith(s: string, p: string) {
    |p| <= |s| && s[..|p|] == p
  }

  /** PHP `strpos($s, $c)` for one character: the first position, if any. */
  function IndexOf(s: string, c: char): (r: Option<nat>)
    ensures r.None? <==> c !in s
    ensures r.Some? ==> r.value < |s| && s[r.value] == c && c !in s[..r.value]
  {
    if |s| == 0 then None
    else if s[0] == c then Some(0)
    else
      match IndexOf(s[1..], c)
      case None => None
      case Some(i) =>
        assert s[..i + 1] == [s[0]] + s[1..][..i];
        Some(i + 1)
  }
}

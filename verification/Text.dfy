/** Number fields and text fields of tar headers: digits in a base, UTF-8, and searching. */
module Text {
  import opened Common

  // ---------------------------------------------------------------- digits

  predicate IsDigit(c: char, base: nat) {
    '0' <= c && (c as int) < '0' as int + base
  }

  predicate AllDigits(s: string, base: nat) {
    forall i :: 0 <= i < |s| ==> IsDigit(s[i], base)
  }

  /** `int(s, base)` for a string of digits. */
  function Value(s: string, base: nat): nat
    requires AllDigits(s, base)
  {
    if s == "" then 0 else Value(Front(s), base) * base + (Last(s) as int - '0' as int)
  }

  function Digit(d: nat): char
    requires d < 10
  {
    '0' + d as char
  }

  /** The digits of `n` without leading zeros. */
  function Numeral(n: nat, base: nat): (s: string)
    requires 2 <= base <= 10
    ensures s != "" && AllDigits(s, base)
  {
    if n < base then [Digit(n)] else Numeral(n / base, base) + [Digit(n % base)]
  }

  /** `n` in exactly `width` digits; the high digits are dropped when it does not fit. */
  function Padded(n: nat, base: nat, width: nat): (s: string)
    requires 2 <= base <= 10
    ensures |s| == width && AllDigits(s, base)
  {
    if width == 0 then "" else Padded(n / base, base, width - 1) + [Digit(n % base)]
  }

  function Power(base: nat, e: nat): nat {
    if e == 0 then 1 else base * Power(base, e - 1)
  }

  lemma {:induction false} ValueOfPadded(n: nat, base: nat, width: nat)
    requires base == 8 || base == 10
    requires n < Power(base, width)
    ensures Value(Padded(n, base, width), base) == n
  {
    if width > 0 {
      if base == 8 {
        assert n / 8 < Power(8, width - 1);
      } else {
        assert n / 10 < Power(10, width - 1);
      }
      var front := Padded(n / base, base, width - 1);
      ValueOfPadded(n / base, base, width - 1);
      ValueOfSnoc(front, Digit(n % base), base);
      if base == 8 { assert n == n / 8 * 8 + n % 8; } else { assert n == n / 10 * 10 + n % 10; }
    }
  }

  lemma ValueOfSnoc(front: string, c: char, base: nat)
    requires AllDigits(front, base) && IsDigit(c, base)
    ensures AllDigits(front + [c], base)
    ensures Value(front + [c], base) == Value(front, base) * base + (c as int - '0' as int)
  {
    assert Front(front + [c]) == front;
  }

  lemma {:induction false} ValueOfNumeral(n: nat, base: nat)
    requires base == 8 || base == 10
    ensures Value(Numeral(n, base), base) == n
  {
    if n < base {
      ValueOfSnoc("", Digit(n), base);
      assert "" + [Digit(n)] == [Digit(n)];
    } else {
      ValueOfNumeral(n / base, base);
      ValueOfSnoc(Numeral(n / base, base), Digit(n % base), base);
      if base == 8 { assert n == n / 8 * 8 + n % 8; } else { assert n == n / 10 * 10 + n % 10; }
    }
  }

  lemma {:induction false} NumeralStartsPositive(n: nat, base: nat)
    requires (base == 8 || base == 10) && n > 0
    ensures Numeral(n, base)[0] != '0'
  {
    if n >= base {
      NumeralStartsPositive(n / base, base);
    }
  }

  /** A digit string without a leading zero is the numeral of its value. */
  lemma {:induction false} NumeralOfValue(s: string, base: nat)
    requires base == 8 || base == 10
    requires s != "" && AllDigits(s, base) && s[0] != '0'
    ensures Value(s, base) > 0 && Numeral(Value(s, base), base) == s
  {
    var front := Front(s);
    var d: nat := Last(s) as int - '0' as int;
    assert Digit(d) == Last(s);
    assert s == front + [Last(s)];
    if front == "" {
      assert Value(s, base) == d;
    } else {
      NumeralOfValue(front, base);
      var v := Value(front, base);
      DivideBack(v, base, d);
    }
  }

  lemma DivideBack(v: nat, base: nat, d: nat)
    requires base == 8 || base == 10
    requires d < base && v > 0
    ensures (v * base + d) / base == v && (v * base + d) % base == d && v * base + d >= base
  {
    if base == 8 {
      assert (v * 8 + d) / 8 == v;
    } else {
      assert (v * 10 + d) / 10 == v;
    }
  }

  // ---------------------------------------------------------------- searching

  /** `s.find(c)`, with the length of `s` for "not found". */
  function Find(s: string, c: char): (i: nat)
    ensures i <= |s|
    ensures forall k :: 0 <= k < i ==> s[k] != c
    ensures i < |s| ==> s[i] == c
  {
    if s == "" || s[0] == c then 0 else 1 + Find(s[1..], c)
  }

  lemma FindAfterPrefix(a: string, c: char, b: string)
    requires c !in a
    ensures Find(a + [c] + b, c) == |a|
  {
    var s := a + [c] + b;
    assert s[|a|] == c;
    assert forall k :: 0 <= k < |a| ==> s[k] == a[k];
  }

  predicate AllZero(s: Bytes) {
    forall i :: 0 <= i < |s| ==> s[i] == '\0'
  }

  function Zeros(n: nat): (z: Bytes)
    ensures |z| == n && AllZero(z)
  {
    seq(n, _ => '\0')
  }

  // ---------------------------------------------------------------- UTF-8

  predicate InRange(c: char, low: int, high: int) {
    low <= c as int <= high
  }

  predicate Tail(c: char) {
    InRange(c, 0x80, 0xBF)
  }

  /** The length of the well-formed UTF-8 sequence that `s` starts with, or 0 (section 4 of RFC 3629). */
  function Utf8Length(s: Bytes): (n: nat)
    ensures n <= |s|
  {
    if s == "" then 0
    else if InRange(s[0], 0x00, 0x7F) then 1
    else if |s| >= 2 && InRange(s[0], 0xC2, 0xDF) && Tail(s[1]) then 2
    else if |s| >= 3 && Tail(s[2]) &&
            (|| (InRange(s[0], 0xE0, 0xE0) && InRange(s[1], 0xA0, 0xBF))
             || (InRange(s[0], 0xE1, 0xEC) && Tail(s[1]))
             || (InRange(s[0], 0xED, 0xED) && InRange(s[1], 0x80, 0x9F))
             || (InRange(s[0], 0xEE, 0xEF) && Tail(s[1]))) then 3
    else if |s| >= 4 && Tail(s[2]) && Tail(s[3]) &&
            (|| (InRange(s[0], 0xF0, 0xF0) && InRange(s[1], 0x90, 0xBF))
             || (InRange(s[0], 0xF1, 0xF3) && Tail(s[1]))
             || (InRange(s[0], 0xF4, 0xF4) && InRange(s[1], 0x80, 0x8F))) then 4
    else 0
  }

  predicate ValidUtf8(s: Bytes)
    decreases |s|
  {
    s == "" || (Utf8Length(s) > 0 && ValidUtf8(s[Utf8Length(s)..]))
  }

  predicate Ascii(s: Bytes) {
    forall i :: 0 <= i < |s| ==> s[i] as int < 0x80
  }

  lemma {:induction false} AsciiThenUtf8(a: Bytes, b: Bytes)
    requires Ascii(a) && ValidUtf8(b)
    ensures ValidUtf8(a + b)
    decreases |a|
  {
    if a == "" {
      assert a + b == b;
    } else {
      AsciiThenUtf8(a[1..], b);
      assert (a + b)[1..] == a[1..] + b;
    }
  }

  lemma AsciiIsUtf8(a: Bytes)
    requires Ascii(a)
    ensures ValidUtf8(a)
  {
    AsciiThenUtf8(a, "");
    assert a + "" == a;
  }

  /** A slash is never part of a longer sequence. */
  lemma {:induction false} Utf8AroundSlash(a: Bytes, b: Bytes)
    requires ValidUtf8(a + "/" + b)
    ensures ValidUtf8(a) && ValidUtf8(b)
    decreases |a|
  {
    var s := a + "/" + b;
    var n := Utf8Length(s);
    assert s[|a|] == '/';
    if a == "" {
      assert s[n..] == b;
    } else {
      assert forall i :: 0 <= i < |a| ==> s[i] == a[i];
      assert n <= |a| && Utf8Length(a) == n;
      assert s[n..] == a[n..] + "/" + b;
      Utf8AroundSlash(a[n..], b);
    }
  }

  // ---------------------------------------------------------------- header fields

  predicate Blank(c: char) {
    c == ' ' || c == '\0'
  }

  /** `field.strip(b" \x00")`. */
  function Strip(s: Bytes): Bytes {
    if s == "" then ""
    else if Blank(s[0]) then Strip(s[1..])
    else if Blank(Last(s)) then Strip(Front(s))
    else s
  }

  /** `parse_tar_number`. */
  function TarNumber(field: Bytes): Option<nat> {
    if field != "" && field[0] as int >= 0x80 then None
    else if AllDigits(Strip(field), 8) then Some(Value(Strip(field), 8))
    else None
  }

  /** `parse_tar_text`. */
  function TarText(field: Bytes): Option<string> {
    var end := Find(field, '\0');
    if AllZero(field[end..]) && ValidUtf8(field[..end]) then Some(field[..end]) else None
  }

  lemma {:induction false} StripDigits(digits: string, rest: Bytes)
    requires digits != "" && AllDigits(digits, 8) && forall i :: 0 <= i < |rest| ==> Blank(rest[i])
    ensures Strip(digits + rest) == digits
  {
    assert !Blank(digits[0]);
    if rest == "" {
      assert digits + rest == digits;
    } else {
      assert Front(digits + rest) == digits + Front(rest);
      StripDigits(digits, Front(rest));
    }
  }

  /** An octal field of digits and terminators reads back. */
  lemma TarNumberOfPadded(n: nat, width: nat, rest: Bytes)
    requires width > 0 && n < Power(8, width) && forall i :: 0 <= i < |rest| ==> Blank(rest[i])
    ensures TarNumber(Padded(n, 8, width) + rest) == Some(n)
  {
    var digits := Padded(n, 8, width);
    StripDigits(digits, rest);
    ValueOfPadded(n, 8, width);
    assert IsDigit(digits[0], 8) && (digits + rest)[0] == digits[0];
  }

  lemma FindInPadded(text: string, n: nat)
    requires '\0' !in text
    ensures Find(text + Zeros(n), '\0') == |text|
  {
    var field := text + Zeros(n);
    assert forall k :: 0 <= k < |text| ==> field[k] == text[k];
    if n > 0 {
      assert field[|text|] == '\0';
    }
  }

  /** A NUL-padded text field reads back. */
  lemma TarTextOfPadded(text: string, n: nat)
    requires ValidUtf8(text) && '\0' !in text
    ensures TarText(text + Zeros(n)) == Some(text)
  {
    var field := text + Zeros(n);
    FindInPadded(text, n);
    assert field[..|text|] == text && field[|text|..] == Zeros(n);
  }
}

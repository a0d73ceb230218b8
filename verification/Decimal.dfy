/** Decimal numbers as they travel in instructions and replies: `to_string` on
    one side, `str::parse` on the other. */
module Decimal {
  import opened Wrappers

  const USIZE_MAX: nat := 0xFFFF_FFFF_FFFF_FFFF
  const U8_MAX: nat := 255

  type Usize = n: nat | n <= 0xFFFF_FFFF_FFFF_FFFF
  type U8 = n: nat | n <= 255

  predicate IsDigit(c: char) {
    '0' <= c <= '9'
  }

  function DigitValue(c: char): nat
    requires IsDigit(c)
  {
    c as int - '0' as int
  }

  function DigitChar(d: nat): char
    requires d < 10
  {
    (d + '0' as int) as char
  }

  function ToString(n: nat): (s: string)
    ensures s != "" && forall k :: 0 <= k < |s| ==> IsDigit(s[k])
  {
    if n < 10 then [DigitChar(n)] else ToString(n / 10) + [DigitChar(n % 10)]
  }

  /** The digit loop of `parse`: every prefix must fit in the type. */
  function ParseDigits(s: string, acc: nat, max: nat): (r: Option<nat>)
    ensures acc <= max && r.Some? ==> r.value <= max
  {
    if s == "" then Some(acc)
    else if !IsDigit(s[0]) then None
    else
      var next := acc * 10 + DigitValue(s[0]);
      if next > max then None else ParseDigits(s[1..], next, max)
  }

  /** `parse` for an unsigned type with greatest value `max`; one leading plus sign is allowed. */
  function Parse(s: string, max: nat): (r: Option<nat>)
    ensures r.Some? ==> r.value <= max
  {
    var digits := if s != "" && s[0] == '+' then s[1..] else s;
    if digits == "" then None else ParseDigits(digits, 0, max)
  }

  /** Parsing starts with printed digits exactly when their value fits. */
  lemma {:induction false} ParsePrintedPrefix(n: nat, rest: string, max: nat)
    ensures ParseDigits(ToString(n) + rest, 0, max) == if n <= max then ParseDigits(rest, n, max) else None
  {
    if n < 10 {
      assert (ToString(n) + rest)[1..] == rest;
    } else {
      var d := [DigitChar(n % 10)];
      assert ToString(n) + rest == ToString(n / 10) + (d + rest);
      ParsePrintedPrefix(n / 10, d + rest, max);
      assert (d + rest)[1..] == rest;
      assert n / 10 * 10 + n % 10 == n;
    }
  }

  /** A printed number is read back exactly when it fits the type it is read into. */
  lemma ParseToString(n: nat, max: nat)
    ensures Parse(ToString(n), max) == if n <= max then Some(n) else None
  {
    ParsePrintedPrefix(n, "", max);
    assert ToString(n) + "" == ToString(n);
    assert IsDigit(ToString(n)[0]);
  }

  // ---------- Numerals ----------

  predicate AllDigits(s: string) {
    forall k | 0 <= k < |s| :: IsDigit(s[k])
  }

  lemma DigitsAre(c: char)
    ensures IsDigit(c) <==> c in "0123456789"
  {
    if IsDigit(c) {
      assert c == "0123456789"[c as int - '0' as int];
    }
  }

  /** The value of a row of digits, by place. */
  function Value(digits: string): nat
    requires AllDigits(digits)
  {
    if digits == "" then 0
    else
      var last := digits[|digits| - 1];
      assert IsDigit(last);
      10 * Value(digits[..|digits| - 1]) + (last as int - '0' as int)
  }

  /** The text is a decimal numeral for `n`: at least one digit, perhaps a plus sign before them. */
  predicate Denotes(s: string, n: nat) {
    var digits := if s != "" && s[0] == '+' then s[1..] else s;
    digits != "" && AllDigits(digits) && Value(digits) == n
  }

  lemma NumeralHasNoSpace(text: string, n: nat)
    requires Denotes(text, n)
    ensures ' ' !in text
  {
    hide Value;
  }

  lemma {:induction false} ValueOfPrefix(s: string, n: nat)
    requires n <= |s| && AllDigits(s)
    ensures Value(s[..n]) <= Value(s)
    decreases |s|
  {
    if n == |s| {
      assert s[..n] == s;
    } else {
      ValueOfPrefix(s[..|s| - 1], n);
      assert s[..|s| - 1][..n] == s[..n];
    }
  }

  /** The digit loop, with `i` digits read: it goes on exactly while there are digits that fit. */
  lemma {:induction false} ParseDigitsIff(s: string, i: nat, max: nat)
    requires i <= |s| && AllDigits(s[..i]) && Value(s[..i]) <= max
    ensures ParseDigits(s[i..], Value(s[..i]), max) ==
            if AllDigits(s) && Value(s) <= max then Some(Value(s)) else None
    decreases |s| - i
  {
    if i == |s| {
      assert s[..i] == s;
    } else if IsDigit(s[i]) {
      assert s[..i + 1][..i] == s[..i];
      assert s[i..][1..] == s[i + 1..];
      if Value(s[..i + 1]) <= max {
        ParseDigitsIff(s, i + 1, max);
      } else if AllDigits(s) {
        ValueOfPrefix(s, i + 1);
      }
    }
  }

  /** `parse` accepts exactly the numerals of the numbers that fit. */
  lemma ParseIff(s: string, n: nat, max: nat)
    ensures Parse(s, max) == Some(n) <==> Denotes(s, n) && n <= max
  {
    var digits := if s != "" && s[0] == '+' then s[1..] else s;
    assert digits[..0] == "" && Value(digits[..0]) == 0;
    ParseDigitsIff(digits, 0, max);
    assert digits[0..] == digits;
  }

  /** A printed number is a numeral for it, with neither a sign nor a leading zero. */
  lemma {:induction false} PrintedDenotes(n: nat)
    ensures Denotes(ToString(n), n) && ToString(n)[0] != '+'
    ensures ToString(n)[0] == '0' ==> n == 0 && ToString(n) == "0"
  {
    if n >= 10 {
      PrintedDenotes(n / 10);
      var digits := ToString(n);
      assert digits[..|digits| - 1] == ToString(n / 10);
    } else {
      assert ToString(n)[..0] == "";
    }
  }
}

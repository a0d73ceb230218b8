/** UTF-8 (RFC 3629, section 3): `String::as_bytes` and `str::from_utf8`. */
module Utf8 {
  import opened Wrappers

  type Byte = b: int | 0 <= b < 256

  /** Unicode scalar values: surrogates are not characters. */
  predicate IsScalar(v: int) {
    0 <= v < 0xD800 || 0xE000 <= v < 0x11_0000
  }

  /** The encoding of one scalar value. */
  function EncodeScalar(v: int): (e: seq<Byte>)
    requires IsScalar(v)
    ensures 1 <= |e| <= 4
  {
    var q1 := v / 64;
    var q2 := q1 / 64;
    if v < 0x80 then [v]
    else if v < 0x800 then [0xC0 + q1, 0x80 + v % 64]
    else if v < 0x1_0000 then [0xE0 + q2, 0x80 + q1 % 64, 0x80 + v % 64]
    else [0xF0 + q2 / 64, 0x80 + q2 % 64, 0x80 + q1 % 64, 0x80 + v % 64]
  }

  function EncodeChar(c: char): (e: seq<Byte>)
    ensures 1 <= |e| <= 4
  {
    EncodeScalar(c as int)
  }

  function Encode(s: string): seq<Byte> {
    if s == "" then [] else EncodeChar(s[0]) + Encode(s[1..])
  }

  predicate IsTail(b: int) {
    0x80 <= b < 0xC0
  }

  /** The value and length of the first character; overlong forms, surrogates and
      values past the last scalar value are invalid. */
  function DecodeScalar(b: seq<int>): (r: Option<(int, nat)>)
    requires b != []
    ensures r.Some? ==> IsScalar(r.value.0) && 1 <= r.value.1 <= |b|
  {
    if 0 <= b[0] < 0x80 then Some((b[0], 1))
    else if 0xC2 <= b[0] < 0xE0 && |b| >= 2 && IsTail(b[1]) then
      Some(((b[0] - 0xC0) * 64 + (b[1] - 0x80), 2))
    else if 0xE0 <= b[0] < 0xF0 && |b| >= 3 && IsTail(b[1]) && IsTail(b[2]) then
      var v := ((b[0] - 0xE0) * 64 + (b[1] - 0x80)) * 64 + (b[2] - 0x80);
      if 0x800 <= v && IsScalar(v) then Some((v, 3)) else None
    else if 0xF0 <= b[0] < 0xF5 && |b| >= 4 && IsTail(b[1]) && IsTail(b[2]) && IsTail(b[3]) then
      var v := (((b[0] - 0xF0) * 64 + (b[1] - 0x80)) * 64 + (b[2] - 0x80)) * 64 + (b[3] - 0x80);
      if 0x1_0000 <= v && IsScalar(v) then Some((v, 4)) else None
    else None
  }

  function Prepend(c: char, rest: Option<string>): Option<string> {
    match rest case None => None case Some(t) => Some([c] + t)
  }

  function Decode(b: seq<Byte>): Option<string> {
    if b == [] then Some("")
    else match DecodeScalar(b)
         case None => None
         case Some((v, n)) => Prepend(v as char, Decode(b[n..]))
  }

  lemma EncodeScalarDecodes(v: int, rest: seq<int>)
    requires IsScalar(v)
    ensures DecodeScalar(EncodeScalar(v) + rest) == Some((v, |EncodeScalar(v)|))
  {
    var e := EncodeScalar(v);
    var b := e + rest;
    assert b[0] == e[0] && (|e| >= 2 ==> b[1] == e[1]) && (|e| >= 3 ==> b[2] == e[2]);
    var q1 := v / 64;
    var q2 := q1 / 64;
    assert v == q1 * 64 + v % 64 && q1 == q2 * 64 + q1 % 64 && q2 == q2 / 64 * 64 + q2 % 64;
  }

  lemma DecodeStep(c: char, rest: seq<Byte>)
    ensures Decode(EncodeChar(c) + rest) == Prepend(c, Decode(rest))
  {
    var e := EncodeChar(c);
    EncodeScalarDecodes(c as int, rest);
    assert (e + rest)[|e|..] == rest;
  }

  function PrependAll(s: string, rest: Option<string>): Option<string> {
    match rest case None => None case Some(t) => Some(s + t)
  }

  lemma PrependStep(c: char, s: string, rest: Option<string>)
    ensures Prepend(c, PrependAll(s, rest)) == PrependAll([c] + s, rest)
    ensures PrependAll("", rest) == rest
  {
    if rest.Some? {
      assert [c] + (s + rest.value) == [c] + s + rest.value;
      assert "" + rest.value == rest.value;
    }
  }

  lemma {:induction false} DecodePrefix(s: string, rest: seq<Byte>)
    ensures Decode(Encode(s) + rest) == PrependAll(s, Decode(rest))
  {
    if s == "" {
      assert Encode(s) + rest == rest;
      PrependStep('x', "", Decode(rest));
    } else {
      var tail := Encode(s[1..]) + rest;
      assert Encode(s) + rest == EncodeChar(s[0]) + tail;
      DecodeStep(s[0], tail);
      DecodePrefix(s[1..], rest);
      PrependStep(s[0], s[1..], Decode(rest));
      assert s == [s[0]] + s[1..];
    }
  }

  /** `from_utf8` recovers every string from its bytes. */
  lemma DecodeEncode(s: string)
    ensures Decode(Encode(s)) == Some(s)
  {
    DecodePrefix(s, []);
    assert Encode(s) + [] == Encode(s) && s + "" == s;
  }

  lemma {:induction false} EncodeConcat(s: string, t: string)
    ensures Encode(s + t) == Encode(s) + Encode(t)
  {
    if s == "" {
      assert s + t == t;
    } else {
      assert (s + t)[1..] == s[1..] + t;
      EncodeConcat(s[1..], t);
    }
  }

  /** An ASCII byte occurs in an encoding exactly when its character occurs in the text,
      so searching bytes for a delimiter never cuts a character. */
  lemma {:induction false} AsciiOccurs(s: string, c: char)
    requires c as int < 0x80
    ensures c as int in Encode(s) <==> c in s
  {
    if s != "" {
      AsciiOccurs(s[1..], c);
      assert s == [s[0]] + s[1..];
      AsciiOccursInChar(s[0], c);
    }
  }

  lemma AsciiOccursInChar(d: char, c: char)
    requires c as int < 0x80
    ensures c as int in EncodeChar(d) <==> c == d
  {
    if d as int < 0x80 {
      assert EncodeChar(d) == [d as int];
      assert EncodeChar(d)[0] == d as int;
    }
  }

  lemma ThreeBytes(lead: int, b: int, c: int)
    requires 0xE0 <= lead < 0xF0 && IsTail(b) && IsTail(c)
    ensures var v := ((lead - 0xE0) * 64 + (b - 0x80)) * 64 + (c - 0x80);
            0x800 <= v && IsScalar(v) ==> EncodeScalar(v) == [lead, b, c]
  {
    var high := (lead - 0xE0) * 64 + (b - 0x80);
    TwoDigits(lead - 0xE0, b - 0x80);
    TwoDigits(high, c - 0x80);
  }

  lemma FourBytes(lead: int, b: int, c: int, d: int)
    requires 0xF0 <= lead < 0xF5 && IsTail(b) && IsTail(c) && IsTail(d)
    ensures var v := (((lead - 0xF0) * 64 + (b - 0x80)) * 64 + (c - 0x80)) * 64 + (d - 0x80);
            0x1_0000 <= v && IsScalar(v) ==> EncodeScalar(v) == [lead, b, c, d]
  {
    var top := (lead - 0xF0) * 64 + (b - 0x80);
    var high := top * 64 + (c - 0x80);
    TwoDigits(lead - 0xF0, b - 0x80);
    TwoDigits(top, c - 0x80);
    TwoDigits(high, d - 0x80);
  }

  lemma TwoBytes(lead: int, b: int)
    requires 0xC2 <= lead < 0xE0 && IsTail(b)
    ensures var v := (lead - 0xC0) * 64 + (b - 0x80);
            IsScalar(v) && EncodeScalar(v) == [lead, b]
  {
    TwoDigits(lead - 0xC0, b - 0x80);
  }

  lemma ScalarIsEncoded(b: seq<Byte>)
    requires b != [] && DecodeScalar(b).Some?
    ensures var (v, n) := DecodeScalar(b).value;
            IsScalar(v) && 1 <= n <= |b| && b[..n] == EncodeScalar(v)
  {
    var (v, n) := DecodeScalar(b).value;
    if n == 1 {
      assert EncodeScalar(v) == [v];
    } else {
      hide EncodeScalar;
      if n == 2 {
        TwoBytes(b[0], b[1]);
        assert b[..2] == [b[0], b[1]];
      } else if n == 3 {
        ThreeBytes(b[0], b[1], b[2]);
        assert b[..3] == [b[0], b[1], b[2]];
      } else {
        FourBytes(b[0], b[1], b[2], b[3]);
        assert b[..4] == [b[0], b[1], b[2], b[3]];
      }
    }
  }

  lemma TwoDigits(high: int, low: int)
    requires 0 <= low < 64
    ensures (high * 64 + low) / 64 == high && (high * 64 + low) % 64 == low
  {
  }

  lemma {:induction false} DecodedIsEncoded(b: seq<Byte>)
    requires Decode(b).Some?
    ensures Encode(Decode(b).value) == b
    decreases |b|
  {
    hide DecodeScalar, EncodeScalar;
    if b != [] {
      ScalarIsEncoded(b);
      var (v, n) := DecodeScalar(b).value;
      DecodedIsEncoded(b[n..]);
      var rest := Decode(b[n..]).value;
      assert ([v as char] + rest)[1..] == rest;
      assert b == b[..n] + b[n..];
    }
  }

  /** `from_utf8` accepts exactly the encodings of texts. */
  lemma DecodeIff(b: seq<Byte>, s: string)
    ensures Decode(b) == Some(s) <==> b == Encode(s)
  {
    DecodeEncode(s);
    if Decode(b).Some? {
      DecodedIsEncoded(b);
    }
  }

  /** The characters of the examples in section 7 of RFC 3629. */
  lemma Rfc3629Examples()
    ensures EncodeChar('A') == [0x41] && EncodeScalar(0x0391) == [0xCE, 0x91]
    ensures EncodeScalar(0x2262) == [0xE2, 0x89, 0xA2] && EncodeScalar(0xD55C) == [0xED, 0x95, 0x9C]
    ensures EncodeScalar(0xFEFF) == [0xEF, 0xBB, 0xBF] && EncodeScalar(0x233B4) == [0xF0, 0xA3, 0x8E, 0xB4]
  {
  }
}

/**
 * Numbers as the envelope spells them.
 *
 * Decimal numbers have no leading zeros, so each has one spelling; sequences
 * and opcodes are lowercase hexadecimal of a fixed width, so different numbers
 * of one width never look alike. Both directions of each spelling are proved,
 * and the loops that print and read them compute these functions.
 */
module Numerals {
  import opened Bytes

  const U32_MAX: nat := 0xFFFF_FFFF

  // ----- decimal -----------------------------------------------------------------

  /** The one spelling of a number. */
  function Digits(v: nat): (r: seq<byte>)
    ensures |r| >= 1
  {
    if v < 10 then [48 + v] else Digits(v / 10) + [48 + v % 10]
  }

  predicate IsDigit(b: byte) {
    48 <= b <= 57
  }

  predicate AllDigits(s: seq<byte>) {
    forall i :: 0 <= i < |s| ==> IsDigit(s[i])
  }

  function Value(s: seq<byte>): (v: nat)
    requires AllDigits(s)
  {
    if s == [] then 0
    else
      var d: int := s[|s| - 1];
      10 * Value(s[..|s| - 1]) + (d - 48)
  }

  predicate Canonical(s: seq<byte>) {
    1 <= |s| <= 10 && AllDigits(s) && (|s| > 1 ==> s[0] != 48)
  }

  /** decimal. */
  function Decimal(s: seq<byte>, limit: u32): (r: Option<u32>) {
    if Canonical(s) && Value(s) <= limit then Some(Value(s)) else None
  }

  lemma {:induction false} DigitsValue(v: nat)
    ensures AllDigits(Digits(v)) && Value(Digits(v)) == v && (|Digits(v)| > 1 ==> Digits(v)[0] != 48)
    ensures v > 0 ==> Digits(v)[0] != 48
    decreases v
  {
    var s := Digits(v);
    if v < 10 {
      assert s[..0] == [];
    } else {
      DigitsValue(v / 10);
      assert s[..|s| - 1] == Digits(v / 10);
    }
  }

  lemma {:induction false} ValueDigits(s: seq<byte>)
    requires s != [] && AllDigits(s) && (|s| > 1 ==> s[0] != 48)
    ensures Digits(Value(s)) == s && (|s| > 1 ==> Value(s) >= 10)
    decreases |s|
  {
    var d: int := s[|s| - 1];
    var front := s[..|s| - 1];
    assert s == front + [d];
    if front == [] {
      assert Value(front) == 0;
    } else {
      ValueDigits(front);
      LeadPositive(front);
      var q := Value(front);
      assert (10 * q + (d - 48)) / 10 == q && (10 * q + (d - 48)) % 10 == d - 48;
    }
  }

  lemma {:induction false} LeadPositive(s: seq<byte>)
    requires s != [] && AllDigits(s) && s[0] != 48
    ensures Value(s) >= 1
    decreases |s|
  {
    var front := s[..|s| - 1];
    if front != [] {
      LeadPositive(front);
    }
  }

  /** Ten digits are enough for a 32-bit number. */
  lemma {:induction false} DigitsLength(v: nat, bound: nat, n: nat)
    requires v < bound && bound == Power10(n) && n >= 1
    ensures |Digits(v)| <= n
    decreases n
  {
    assert Power10(1) == 10;
    if v >= 10 {
      DigitsLength(v / 10, Power10(n - 1), n - 1);
    }
  }

  function Power10(n: nat): (r: nat) {
    if n == 0 then 1 else 10 * Power10(n - 1)
  }

  lemma TenDigits(v: u32)
    ensures |Digits(v)| <= 10
  {
    assert Power10(5) == 100000;
    assert Power10(10) == 10000000000;
    DigitsLength(v, Power10(10), 10);
  }

  /** A token is read as v exactly when it is the one spelling of v and v is within the limit. */
  lemma DecimalExact(s: seq<byte>, limit: u32, v: u32)
    ensures Decimal(s, limit) == Some(v) <==> s == Digits(v) && v <= limit
  {
    TenDigits(v);
    DigitsValue(v);
    if Canonical(s) {
      ValueDigits(s);
    }
  }

  lemma {:induction false} ValueGrows(s: seq<byte>, k: nat)
    requires AllDigits(s) && k <= |s|
    ensures AllDigits(s[..k]) && Value(s[..k]) <= Value(s)
    decreases |s|
  {
    if k == |s| {
      assert s[..k] == s;
    } else {
      var front := s[..|s| - 1];
      ValueGrows(front, k);
      assert front[..k] == s[..k];
    }
  }

  /** decimal, with the guard that keeps 32-bit arithmetic from wrapping. */
  method ParseDecimal(s: seq<byte>, limit: u32) returns (r: Option<u32>)
    ensures r == Decimal(s, limit)
  {
    if |s| == 0 || |s| > 10 || (|s| > 1 && s[0] == 48) {
      return None;
    }
    var parsed: nat := 0;
    var index := 0;
    while index < |s|
      invariant 0 <= index <= |s|
      invariant AllDigits(s[..index]) && parsed == Value(s[..index]) <= U32_MAX
    {
      if !IsDigit(s[index]) {
        return None;
      }
      var digit: int := s[index] - 48;
      ghost var next := s[..index + 1];
      assert next[..index] == s[..index];
      assert AllDigits(next) && Value(next) == 10 * parsed + digit;
      if parsed > (U32_MAX - digit) / 10 {
        if AllDigits(s) {
          ValueGrows(s, index + 1);
        }
        return None;
      }
      parsed := parsed * 10 + digit;
      index := index + 1;
    }
    assert s[..index] == s;
    r := if parsed > limit then None else Some(parsed);
  }

  function Reverse(s: seq<byte>): (r: seq<byte>)
    ensures |r| == |s| && forall i :: 0 <= i < |s| ==> r[i] == s[|s| - 1 - i]
  {
    seq(|s|, i requires 0 <= i < |s| => s[|s| - 1 - i])
  }

  /** The tail of append_decimal: digits collected backwards, then turned round in place. */
  method TurnRound(text: array<byte>, length: nat)
    requires length <= text.Length
    modifies text
    ensures text[..length] == Reverse(old(text[..length]))
  {
    var i := 0;
    while i < length / 2
      invariant 0 <= i <= length / 2
      invariant forall k :: 0 <= k < i ==> text[k] == old(text[length - 1 - k])
      invariant forall k :: 0 <= k < i ==> text[length - 1 - k] == old(text[k])
      invariant forall k :: i <= k < length - i ==> text[k] == old(text[k])
    {
      text[i], text[length - 1 - i] := text[length - 1 - i], text[i];
      i := i + 1;
    }
    forall k | 0 <= k < length
      ensures text[k] == old(text[length - 1 - k])
    {
      if k >= length - i {
        assert text[length - 1 - (length - 1 - k)] == old(text[length - 1 - k]);
      }
    }
  }

  /** append_decimal, up to the copy into the buffer. */
  method FormatDecimal(v: u32) returns (r: seq<byte>)
    ensures r == Digits(v)
  {
    if v == 0 {
      return [48];
    }
    TenDigits(v);
    var text := new byte[16](i => 0);
    var length, value: nat := 0, v;
    while value != 0 && length < 16
      invariant 0 <= length <= 10
      invariant Digits(v) == (if value == 0 then [] else Digits(value)) + Reverse(text[..length])
    {
      ghost var before, was := text[..length], value;
      ghost var d := 48 + value % 10;
      text[length] := 48 + value % 10;
      length := length + 1;
      value := value / 10;
      assert text[..length] == before + [d];
      assert Reverse(text[..length]) == [d] + Reverse(before);
      DigitsLast(was);
      assert (if value == 0 then [] else Digits(value)) + [d] == Digits(was);
      assert Digits(v) == (if value == 0 then [] else Digits(value)) + ([d] + Reverse(before));
    }
    TurnRound(text, length);
    r := text[..length];
  }

  lemma DigitsLast(v: nat)
    requires v > 0
    ensures Digits(v) == (if v / 10 == 0 then [] else Digits(v / 10)) + [48 + v % 10]
  {
  }

  // ----- hexadecimal ---------------------------------------------------------------

  predicate IsHexDigit(b: byte) {
    48 <= b <= 57 || 97 <= b <= 102
  }

  function HexDigitValue(b: byte): (d: nat)
    requires IsHexDigit(b)
    ensures d < 16 && HexDigit(d) == b
  {
    var n: int := b;
    if n <= 57 then n - 48 else n - 87
  }

  function Hex(v: nat, width: nat): (r: seq<byte>)
    ensures |r| == width
  {
    if width == 0 then [] else Hex(v / 16, width - 1) + [HexDigit(v % 16)]
  }

  predicate IsHex(s: seq<byte>, width: nat) {
    |s| == width && forall i :: 0 <= i < |s| ==> IsHexDigit(s[i])
  }

  function HexValue(s: seq<byte>): (v: nat)
    requires IsHex(s, |s|)
  {
    if s == [] then 0 else 16 * HexValue(s[..|s| - 1]) + HexDigitValue(s[|s| - 1])
  }

  function Power16(n: nat): (r: nat)
    ensures r >= 1
  {
    if n == 0 then 1 else 16 * Power16(n - 1)
  }

  lemma {:induction false} HexRead(v: nat, width: nat)
    requires v < Power16(width)
    ensures IsHex(Hex(v, width), width) && HexValue(Hex(v, width)) == v
    decreases width
  {
    if width > 0 {
      HexRead(v / 16, width - 1);
      var s := Hex(v, width);
      assert s[..width - 1] == Hex(v / 16, width - 1);
      DigitBack(v % 16);
    }
  }

  lemma DigitBack(d: nat)
    requires d < 16
    ensures IsHexDigit(HexDigit(d)) && HexDigitValue(HexDigit(d)) == d
  {
  }

  lemma {:induction false} HexWritten(s: seq<byte>)
    requires IsHex(s, |s|)
    ensures HexValue(s) < Power16(|s|) && Hex(HexValue(s), |s|) == s
    decreases |s|
  {
    if s != [] {
      var front, d := s[..|s| - 1], HexDigitValue(s[|s| - 1]);
      HexWritten(front);
      var q := HexValue(front);
      assert (16 * q + d) / 16 == q && (16 * q + d) % 16 == d;
    }
  }

  /** Different numbers of one width have different spellings. */
  lemma HexInjective(a: nat, b: nat, width: nat)
    requires a < Power16(width) && b < Power16(width) && Hex(a, width) == Hex(b, width)
    ensures a == b
  {
    HexRead(a, width);
    HexRead(b, width);
  }

  /** v >> 4 * n. */
  function Shifted(v: nat, n: nat): (r: nat) {
    if n == 0 then v else Shifted(v, n - 1) / 16
  }

  /** The loop of append_hex and of format_sequence: the digits from the top. */
  method FormatHex(v: nat, digits: nat) returns (r: seq<byte>)
    ensures r == Hex(v, digits)
  {
    r := [];
    var index := 0;
    while index < digits
      invariant 0 <= index <= digits
      invariant r == Hex(Shifted(v, digits - index), index)
    {
      r := r + [HexDigit(Shifted(v, digits - 1 - index) % 16)];
      index := index + 1;
    }
  }
}

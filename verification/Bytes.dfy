/**
 * Bytes, machine words and their little-endian wire form.
 *
 * Every word has one spelling: reading what was written and writing what was
 * read are both the identity.
 */
module Bytes {

  datatype Option<+T> = None | Some(value: T)

  type byte = b: int | 0 <= b < 0x100
  type u16 = n: int | 0 <= n < 0x1_0000
  type u32 = n: int | 0 <= n < 0x1_0000_0000
  type u64 = n: int | 0 <= n < 0x1_0000_0000_0000_0000

  /** The longest text that is passed along: KSD_MAX_TEXT_BYTES. */
  const MAX_TEXT_BYTES: nat := 4 * 1024 * 1024

  /** The lower-case hexadecimal digit of n. */
  function HexDigit(n: nat): (b: byte)
    requires n < 16
  {
    if n < 10 then 0x30 + n else 0x61 + n - 10
  }

  /** The sequence without its element at k. */
  function Without<T>(xs: seq<T>, k: nat): (r: seq<T>)
    requires k < |xs|
  {
    xs[..k] + xs[k + 1..]
  }

  function Le16(v: u16): (r: seq<byte>)
    ensures |r| == 2
  {
    [v % 0x100, v / 0x100]
  }

  function Le32(v: u32): (r: seq<byte>)
    ensures |r| == 4
  {
    var x: int := v / 0x100;
    var y: int := x / 0x100;
    [v % 0x100, x % 0x100, y % 0x100, y / 0x100]
  }

  function Le64(v: u64): (r: seq<byte>)
    ensures |r| == 8
  {
    Le32(v % 0x1_0000_0000) + Le32(v / 0x1_0000_0000)
  }

  function FromLe16(s: seq<byte>): (v: u16)
    requires |s| == 2
  {
    var a: int, b: int := s[0], s[1];
    a + 0x100 * b
  }

  function FromLe32(s: seq<byte>): (v: u32)
    requires |s| == 4
  {
    var a: int, b: int, c: int, d: int := s[0], s[1], s[2], s[3];
    a + 0x100 * (b + 0x100 * (c + 0x100 * d))
  }

  function FromLe64(s: seq<byte>): (v: u64)
    requires |s| == 8
  {
    FromLe32(s[..4]) + 0x1_0000_0000 * FromLe32(s[4..])
  }

  lemma Split256(q: int, r: int)
    requires 0 <= r < 0x100
    ensures (0x100 * q + r) / 0x100 == q && (0x100 * q + r) % 0x100 == r
  {
  }

  lemma Le16RoundTrip(v: u16)
    ensures FromLe16(Le16(v)) == v
  {
  }

  lemma Le32RoundTrip(v: u32)
    ensures FromLe32(Le32(v)) == v
  {
  }

  lemma Le64RoundTrip(v: u64)
    ensures FromLe64(Le64(v)) == v
  {
    Le32RoundTrip(v % 0x1_0000_0000);
    Le32RoundTrip(v / 0x1_0000_0000);
    assert Le64(v)[..4] == Le32(v % 0x1_0000_0000);
    assert Le64(v)[4..] == Le32(v / 0x1_0000_0000);
  }

  /** Every word has one spelling: reading and writing back gives the same bytes. */
  lemma Le16Canonical(s: seq<byte>)
    requires |s| == 2
    ensures Le16(FromLe16(s)) == s
  {
  }

  lemma Le32Canonical(s: seq<byte>)
    requires |s| == 4
    ensures Le32(FromLe32(s)) == s
  {
    var a: int, b: int, c: int, d: int := s[0], s[1], s[2], s[3];
    Split256(d, c);
    Split256(c + 0x100 * d, b);
    Split256(b + 0x100 * (c + 0x100 * d), a);
  }

  lemma Le64Canonical(s: seq<byte>)
    requires |s| == 8
    ensures Le64(FromLe64(s)) == s
  {
    var lo, hi := FromLe32(s[..4]), FromLe32(s[4..]);
    var v := FromLe64(s);
    assert v % 0x1_0000_0000 == lo && v / 0x1_0000_0000 == hi;
    Le32Canonical(s[..4]);
    Le32Canonical(s[4..]);
    assert s == s[..4] + s[4..];
  }
}

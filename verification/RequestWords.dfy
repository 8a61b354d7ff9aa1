/** The text a job carries, read the way the script reads it: split at spaces, each field a decimal number. */
module RequestWords {
  import opened Bytes
  import opened Numerals
  import opened Bus
  import Envelope

  /** What a relayed request asks of the script. */
  datatype Ask =
    | Plain                                                          // no operand
    | Listing(detail: u32)
    | Window(handle: u64)
    | Place(handle: u64, x: int, y: int, width: u32, height: u32)
    | Setting(handle: u64, value: u32)

  predicate Int32(v: int) {
    -0x8000_0000 <= v < 0x8000_0000
  }

  /** The 32-bit word a signed number travels in. */
  function TwosComplement(v: int): (w: u32)
    requires Int32(v)
  {
    if v < 0 then v + 0x1_0000_0000 else v
  }

  /** Which requests each operation takes: a handle is never zero, and settings have their ranges. */
  predicate Permitted(opcode: u16, a: Ask) {
    match a
    case Plain => opcode in {0x2011, 0x2013, 0x2050, 0x2051}
    case Listing(detail) => opcode == 0x2010 && detail <= 1
    case Window(handle) => opcode in {0x2014, 0x2020, 0x2021, 0x2022, 0x2023} && handle != 0
    case Place(handle, x, y, _, _) => opcode == 0x2025 && handle != 0 && Int32(x) && Int32(y)
    case Setting(handle, value) =>
      && handle != 0
      && (  (opcode == 0x2027 && value <= 3) || (opcode == 0x2028 && value <= 255)
         || (opcode in {0x2029, 0x202a, 0x202d} && value <= 1))
  }

  /** The payload the request travels in. */
  function Payload(a: Ask): (p: seq<byte>)
    requires a.Place? ==> Int32(a.x) && Int32(a.y)
  {
    match a
    case Plain => []
    case Listing(detail) => Le32(detail) + Le32(0)
    case Window(handle) => Le64(handle)
    case Place(handle, x, y, width, height) =>
      Le64(handle) + Le32(TwosComplement(x)) + Le32(TwosComplement(y)) + Le32(width) + Le32(height)
    case Setting(handle, value) => Le64(handle) + Le32(value) + Le32(0)
  }

  /** The numbers the script works with. */
  function Operands(a: Ask): (ns: seq<int>) {
    match a
    case Plain => []
    case Listing(detail) => [detail]
    case Window(handle) => [handle]
    case Place(handle, x, y, width, height) => [handle, x, y, width, height]
    case Setting(handle, value) => [handle, value]
  }

  // ----- the script's reading -------------------------------------------------------------

  /** The length of the first field. */
  function Field(s: seq<byte>): (n: nat)
    ensures n <= |s|
  {
    if s == [] || s[0] == Envelope.SPACE then 0 else 1 + Field(s[1..])
  }

  function Fields(s: seq<byte>): (fs: seq<seq<byte>>)
    decreases |s|
  {
    var n := Field(s);
    if n == |s| then [s] else [s[..n]] + Fields(s[n + 1..])
  }

  function Number(s: seq<byte>): (v: Option<int>) {
    if s != [] && s[0] == 45 then
      (if |s| > 1 && AllDigits(s[1..]) then Some(0 - Value(s[1..])) else None)
    else if s != [] && AllDigits(s) then Some(Value(s))
    else None
  }

  /** The fields as numbers; no text has none. */
  function Numbers(fs: seq<seq<byte>>): (ns: Option<seq<int>>) {
    if fs == [] then Some([])
    else
      var first, more := Number(fs[0]), Numbers(fs[1..]);
      if first.None? || more.None? then None else Some([first.value] + more.value)
  }

  function Reads(text: seq<byte>): (ns: Option<seq<int>>) {
    if text == [] then Some([]) else Numbers(Fields(text))
  }

  /** A field: something, and no space. */
  predicate IsField(f: seq<byte>) {
    f != [] && forall i :: 0 <= i < |f| ==> f[i] != Envelope.SPACE
  }

  lemma {:induction false} FieldOf(f: seq<byte>, rest: seq<byte>)
    requires forall i :: 0 <= i < |f| ==> f[i] != Envelope.SPACE
    requires rest != [] ==> rest[0] == Envelope.SPACE
    ensures Field(f + rest) == |f|
    decreases |f|
  {
    if f == [] {
      assert f + rest == rest;
    } else {
      assert (f + rest)[1..] == f[1..] + rest;
      FieldOf(f[1..], rest);
    }
  }

  lemma ReadsOne(f: seq<byte>, v: int)
    requires IsField(f) && Number(f) == Some(v)
    ensures Reads(f) == Some([v])
  {
    FieldOf(f, []);
    assert f + [] == f;
    assert Fields(f) == [f] && [f][1..] == [];
    assert Numbers([]) == Some([]);
    assert [v] + [] == [v];
  }

  lemma ReadsMore(f: seq<byte>, v: int, rest: seq<byte>, ns: seq<int>)
    requires IsField(f) && Number(f) == Some(v) && rest != [] && Reads(rest) == Some(ns)
    ensures Reads(f + [Envelope.SPACE] + rest) == Some([v] + ns)
  {
    hide Number;
    var tail := [Envelope.SPACE] + rest;
    FieldOf(f, tail);
    var s := f + [Envelope.SPACE] + rest;
    assert s == f + tail && s[..|f|] == f && s[|f| + 1..] == rest;
    assert ([f] + Fields(rest))[1..] == Fields(rest);
  }

  lemma DigitsField(v: nat)
    ensures IsField(Digits(v)) && Number(Digits(v)) == Some(v)
  {
    DigitsValue(v);
    assert IsDigit(Digits(v)[0]);
  }

  lemma SignedField(v: int)
    requires Int32(v)
    ensures IsField(Signed(TwosComplement(v))) && Number(Signed(TwosComplement(v))) == Some(v)
  {
    if v < 0 {
      DigitsValue(-v);
      assert ([45] + Digits(-v))[1..] == Digits(-v);
    } else {
      DigitsField(v);
    }
  }

  // ----- texts -------------------------------------------------------------------------------

  lemma HandleSpelled(h: u64, rest: seq<byte>)
    ensures Handle(Le64(h) + rest) == h
  {
    hide Le64, FromLe64;
    Le64RoundTrip(h);
    assert (Le64(h) + rest)[..8] == Le64(h);
  }

  lemma WordSpelled(front: seq<byte>, v: u32, rest: seq<byte>)
    ensures Word(front + Le32(v) + rest, |front|) == v
  {
    hide Le32, FromLe32;
    Le32RoundTrip(v);
    assert (front + Le32(v) + rest)[|front|..|front| + 4] == Le32(v);
  }

  lemma PlaceSpelled(h: u64, x: u32, y: u32, width: u32, height: u32)
    ensures var p := Le64(h) + Le32(x) + Le32(y) + Le32(width) + Le32(height);
      Handle(p) == h && Word(p, 8) == x && Word(p, 12) == y && Word(p, 16) == width && Word(p, 20) == height
  {
    hide Le64, Le32, Word, Handle;
    var p := Le64(h) + Le32(x) + Le32(y) + Le32(width) + Le32(height);
    HandleSpelled(h, Le32(x) + Le32(y) + Le32(width) + Le32(height));
    assert p == Le64(h) + (Le32(x) + Le32(y) + Le32(width) + Le32(height));
    WordSpelled(Le64(h), x, Le32(y) + Le32(width) + Le32(height));
    assert p == Le64(h) + Le32(x) + (Le32(y) + Le32(width) + Le32(height));
    WordSpelled(Le64(h) + Le32(x), y, Le32(width) + Le32(height));
    assert p == Le64(h) + Le32(x) + Le32(y) + (Le32(width) + Le32(height));
    WordSpelled(Le64(h) + Le32(x) + Le32(y), width, Le32(height));
    WordSpelled(Le64(h) + Le32(x) + Le32(y) + Le32(width), height, []);
    assert p == p + [];
  }

  lemma SettingSpelled(h: u64, value: u32)
    ensures var p := Le64(h) + Le32(value) + Le32(0); Handle(p) == h && Word(p, 8) == value && Word(p, 12) == 0
  {
    hide Le64, Le32, Word, Handle;
    HandleSpelled(h, Le32(value) + Le32(0));
    assert Le64(h) + Le32(value) + Le32(0) == Le64(h) + (Le32(value) + Le32(0));
    WordSpelled(Le64(h), value, Le32(0));
    WordSpelled(Le64(h) + Le32(value), 0, []);
    assert Le64(h) + Le32(value) + Le32(0) + [] == Le64(h) + Le32(value) + Le32(0);
  }

  lemma ListingSpelled(detail: u32)
    ensures var p := Le32(detail) + Le32(0); Word(p, 0) == detail && Word(p, 4) == 0
  {
    hide Le32, Word;
    WordSpelled([], detail, Le32(0));
    assert [] + Le32(detail) + Le32(0) == Le32(detail) + Le32(0);
    WordSpelled(Le32(detail), 0, []);
    assert Le32(detail) + Le32(0) + [] == Le32(detail) + Le32(0);
  }

  lemma PlaceText(opcode: u16, a: Ask)
    requires Permitted(opcode, a) && a.Place?
    ensures RequestText(opcode, Payload(a)).Some? && Reads(RequestText(opcode, Payload(a)).value) == Some(Operands(a))
  {
    hide Le64, Le32, Word, Handle, Digits, Signed, Reads, Number, IsField;
    var x, y := TwosComplement(a.x), TwosComplement(a.y);
    PlaceSpelled(a.handle, x, y, a.width, a.height);
    DigitsField(a.handle);
    SignedField(a.x);
    SignedField(a.y);
    DigitsField(a.width);
    DigitsField(a.height);
    var t5 := Digits(a.height);
    var t4 := Digits(a.width) + [Envelope.SPACE] + t5;
    var t3 := Signed(y) + [Envelope.SPACE] + t4;
    var t2 := Signed(x) + [Envelope.SPACE] + t3;
    ReadsOne(t5, a.height);
    ReadsMore(Digits(a.width), a.width, t5, [a.height]);
    ReadsMore(Signed(y), a.y, t4, [a.width] + [a.height]);
    ReadsMore(Signed(x), a.x, t3, [a.y] + ([a.width] + [a.height]));
    ReadsMore(Digits(a.handle), a.handle, t2, [a.x] + ([a.y] + ([a.width] + [a.height])));
    PlaceRegrouped(Digits(a.handle), Signed(x), Signed(y), Digits(a.width), t5);
    assert [a.handle] + ([a.x] + ([a.y] + ([a.width] + [a.height]))) == Operands(a);
  }

  lemma PlaceRegrouped(a: seq<byte>, b: seq<byte>, c: seq<byte>, d: seq<byte>, e: seq<byte>)
    ensures var s := [Envelope.SPACE];
      a + s + b + s + c + s + d + s + e == a + s + (b + s + (c + s + (d + s + e)))
  {
  }

  /** Every request an operation takes becomes a text from which the script reads its operands, in order. */
  lemma TextReads(opcode: u16, a: Ask)
    requires Permitted(opcode, a)
    ensures RequestText(opcode, Payload(a)).Some? && Reads(RequestText(opcode, Payload(a)).value) == Some(Operands(a))
  {
    hide Le64, Le32, Word, Handle, Digits, Signed, Reads, Number, IsField;
    match a {
      case Plain => NothingRead();
      case Listing(detail) =>
        ListingSpelled(detail);
        DigitsField(detail);
        ReadsOne(Digits(detail), detail);
      case Window(handle) =>
        HandleSpelled(handle, []);
        assert Le64(handle) + [] == Le64(handle);
        DigitsField(handle);
        ReadsOne(Digits(handle), handle);
      case Place(_, _, _, _, _) => PlaceText(opcode, a);
      case Setting(handle, value) =>
        SettingSpelled(handle, value);
        DigitsField(handle);
        DigitsField(value);
        ReadsOne(Digits(value), value);
        ReadsMore(Digits(handle), handle, Digits(value), [value]);
        assert [handle] + [value] == Operands(a);
    }
  }

  lemma NothingRead()
    ensures Reads([]) == Some([])
  {
  }

  function SignedValue(w: u32): (v: int)
    ensures Int32(v) && TwosComplement(v) == w
  {
    if w < 0x8000_0000 then w else w - 0x1_0000_0000
  }

  /** And nothing else is taken. */
  lemma OnlyAsks(opcode: u16, payload: seq<byte>) returns (a: Ask)
    requires RequestText(opcode, payload).Some?
    ensures Permitted(opcode, a) && Payload(a) == payload
  {
    hide Digits, Signed, Le32, Le64, FromLe32, FromLe64;
    Slices(payload);
    if opcode in {0x2013, 0x2011, 0x2050, 0x2051} {
      a := Plain;
    } else if opcode == 0x2010 {
      a := Listing(Word(payload, 0));
    } else if opcode in {0x2014, 0x2020, 0x2021, 0x2022, 0x2023} {
      a := Window(Handle(payload));
    } else if opcode == 0x2025 {
      a := Place(Handle(payload), SignedValue(Word(payload, 8)), SignedValue(Word(payload, 12)), Word(payload, 16), Word(payload, 20));
    } else {
      a := Setting(Handle(payload), Word(payload, 8));
    }
  }

  /** A payload is its words, spelled out. */
  lemma Slices(p: seq<byte>)
    ensures |p| == 8 ==> p == Le64(Handle(p)) == Le32(Word(p, 0)) + Le32(Word(p, 4))
    ensures |p| == 16 ==> p == Le64(Handle(p)) + Le32(Word(p, 8)) + Le32(Word(p, 12))
    ensures |p| == 24 ==> p == Le64(Handle(p)) + Le32(Word(p, 8)) + Le32(Word(p, 12)) + Le32(Word(p, 16)) + Le32(Word(p, 20))
  {
    hide Le32, Le64, FromLe32, FromLe64;
    if |p| == 8 {
      assert p[..8] == p && p == p[0..4] + p[4..8];
      Le64Canonical(p);
      Le32Canonical(p[0..4]);
      Le32Canonical(p[4..8]);
    } else if |p| == 16 {
      Le64Canonical(p[..8]);
      Le32Canonical(p[8..12]);
      Le32Canonical(p[12..16]);
      assert p == p[..8] + p[8..12] + p[12..16];
    } else if |p| == 24 {
      Le64Canonical(p[..8]);
      Le32Canonical(p[8..12]);
      Le32Canonical(p[12..16]);
      Le32Canonical(p[16..20]);
      Le32Canonical(p[20..24]);
      assert p == p[..8] + p[8..12] + p[12..16] + p[16..20] + p[20..24];
    }
  }
}

/**
 * JSON strings on the wire, after section 7 of RFC 8259: the escaper, the
 * value scanner and the string reader.
 *
 * Writing then reading is the identity, or the Latin-1 transcoding, exactly
 * where the limits allow it, and the scanner never leaves its input.
 */
module Json {
  import opened Bytes
  import Utf8
  import opened WireBuffer

  const QUOTE: byte := 0x22
  const BACKSLASH: byte := 0x5C
  const MAX_DEPTH: nat := 64

  // ----- writing ---------------------------------------------------------

  function EscapeByte(b: byte, latin1: bool): (r: seq<byte>)
    ensures 1 <= |r| <= 6
  {
    if b == QUOTE || b == BACKSLASH then [BACKSLASH, b]
    else if b < 0x20 || b == 0x7F || (latin1 && 0x80 <= b) then
      [BACKSLASH, 0x75, 0x30, 0x30, HexDigit(b / 16), HexDigit(b % 16)]
    else [b]
  }

  function EscapeAll(s: seq<byte>, latin1: bool): (r: seq<byte>) {
    if s == [] then [] else EscapeAll(s[..|s| - 1], latin1) + EscapeByte(s[|s| - 1], latin1)
  }

  function Quoted(s: seq<byte>, latin1: bool): (r: seq<byte>) {
    [QUOTE] + EscapeAll(s, latin1) + [QUOTE]
  }

  lemma EscapeAllMonotone(s: seq<byte>, k: nat, latin1: bool)
    requires k <= |s|
    ensures |EscapeAll(s[..k], latin1)| <= |EscapeAll(s, latin1)|
    decreases |s| - k
  {
    if k < |s| {
      assert s[..k + 1][..k] == s[..k];
      EscapeAllMonotone(s, k + 1, latin1);
    } else {
      assert s[..k] == s;
    }
  }

  /** What a buffer holds once the first k bytes of a string have been written behind base. */
  ghost function Written(base: seq<byte>, s: seq<byte>, k: nat, latin1: bool): (r: seq<byte>)
    requires k <= |s|
  {
    base + [QUOTE] + EscapeAll(s[..k], latin1)
  }

  lemma WrittenStep(base: seq<byte>, s: seq<byte>, k: nat, latin1: bool)
    requires k < |s|
    ensures Written(base, s, k + 1, latin1) == Written(base, s, k, latin1) + EscapeByte(s[k], latin1)
    ensures |Written(base, s, k + 1, latin1)| < |base| + |Quoted(s, latin1)|
  {
    assert s[..k + 1][..k] == s[..k];
    EscapeAllMonotone(s, k + 1, latin1);
  }

  lemma WrittenAll(base: seq<byte>, s: seq<byte>, latin1: bool)
    ensures Written(base, s, |s|, latin1) + [QUOTE] == base + Quoted(s, latin1)
  {
    assert s[..|s|] == s;
  }

  /** ksd_buffer_json_string: refuses exactly when the quoted form does not fit. */
  method WriteString(buffer: Buffer, value: seq<byte>, latin1: bool) returns (ok: bool)
    requires buffer.Valid()
    modifies buffer
    ensures buffer.Valid()
    ensures ok <==> |old(buffer.data)| + |Quoted(value, latin1)| <= buffer.maximum
    ensures ok ==> buffer.data == old(buffer.data) + Quoted(value, latin1)
  {
    ghost var base := buffer.data;
    ok := buffer.Append([QUOTE]);
    if !ok {
      return;
    }
    var index := 0;
    while index < |value|
      invariant 0 <= index <= |value| && buffer.Valid()
      invariant buffer.data == Written(base, value, index, latin1)
    {
      WrittenStep(base, value, index, latin1);
      ok := buffer.Append(EscapeByte(value[index], latin1));
      if !ok {
        return;
      }
      index := index + 1;
    }
    WrittenAll(base, value, latin1);
    ok := buffer.Append([QUOTE]);
  }

  // ----- scanning --------------------------------------------------------

  predicate Space(b: byte) {
    b == 0x20 || b == 0x0A || b == 0x0D || b == 0x09
  }

  predicate EndsScalar(b: byte) {
    b == 0x2C || b == 0x7D || b == 0x5D || Space(b)
  }

  datatype Extent = Extent(start: nat, end: nat)

  function Skip(d: seq<byte>, pos: nat): (r: nat)
    requires pos <= |d|
    ensures pos <= r <= |d|
    decreases |d| - pos
  {
    if pos < |d| && Space(d[pos]) then Skip(d, pos + 1) else pos
  }

  /** Past the closing quote of a string whose contents start at pos. */
  function StringEnd(d: seq<byte>, pos: nat): (r: Option<nat>)
    requires pos <= |d|
    ensures r.Some? ==> pos < r.value <= |d|
    decreases |d| - pos
  {
    if pos == |d| then None
    else if d[pos] == QUOTE then Some(pos + 1)
    else if d[pos] < 0x20 then None
    else if d[pos] != BACKSLASH then StringEnd(d, pos + 1)
    else if pos + 1 == |d| then None
    else StringEnd(d, pos + 2)
  }

  function ScalarEnd(d: seq<byte>, pos: nat): (r: nat)
    requires pos <= |d|
    ensures pos <= r <= |d|
    decreases |d| - pos
  {
    if pos < |d| && !EndsScalar(d[pos]) then ScalarEnd(d, pos + 1) else pos
  }

  /** What value_span accepts at pos: where the value starts and ends. Total on every input. */
  function Span(d: seq<byte>, pos: nat, depth: nat): (r: Option<Extent>)
    requires pos <= |d|
    ensures r.Some? ==> pos <= r.value.start < r.value.end <= |d|
    decreases |d| - pos, 0
  {
    var p := Skip(d, pos);
    if depth > MAX_DEPTH || p == |d| then None
    else if d[p] == QUOTE then
      var e := StringEnd(d, p + 1);
      if e.None? then None else Some(Extent(p, e.value))
    else if d[p] == 0x7B || d[p] == 0x5B then
      var e := Items(d, Skip(d, p + 1), depth, d[p] == 0x7B);
      if e.None? then None else Some(Extent(p, e.value))
    else
      var e := ScalarEnd(d, p);
      if e == p then None else Some(Extent(p, e))
  }

  /** The members of an array or object, from the head of the source's loop: past the closing bracket. */
  function Items(d: seq<byte>, pos: nat, depth: nat, keyed: bool): (r: Option<nat>)
    requires pos <= |d|
    ensures r.Some? ==> pos < r.value <= |d|
    decreases |d| - pos, 2
  {
    var close := if keyed then 0x7D else 0x5D;
    if pos == |d| then None
    else if d[pos] == close then Some(pos + 1)
    else
      var item := Item(d, pos, depth, keyed);
      if item.None? then None
      else
        var s := Skip(d, item.value);
        if s == |d| then None
        else if d[s] == close then Some(s + 1)
        else if d[s] != 0x2C then None
        else
          var t := Skip(d, s + 1);
          if t == |d| || d[t] == close then None else Items(d, t, depth, keyed)
  }

  /** One array element or one key, colon and value. */
  function Item(d: seq<byte>, pos: nat, depth: nat, keyed: bool): (r: Option<nat>)
    requires pos <= |d|
    ensures r.Some? ==> pos < r.value <= |d|
    decreases |d| - pos, 1
  {
    var part := Span(d, pos, depth + 1);
    if part.None? then None
    else if !keyed then Some(part.value.end)
    else
      var c := Skip(d, part.value.end);
      if d[part.value.start] != QUOTE || c == |d| || d[c] != 0x3A then None
      else
        var value := Span(d, c + 1, depth + 1);
        if value.None? then None else Some(value.value.end)
  }

  method SkipSpace(d: seq<byte>, pos: nat) returns (r: nat)
    requires pos <= |d|
    ensures r == Skip(d, pos)
  {
    r := pos;
    while r < |d| && Space(d[r])
      invariant pos <= r <= |d| && Skip(d, pos) == Skip(d, r)
    {
      r := r + 1;
    }
  }

  method StringSpan(d: seq<byte>, pos: nat) returns (r: Option<nat>)
    requires pos <= |d|
    ensures r == StringEnd(d, pos)
  {
    var p := pos;
    while p < |d| && d[p] != QUOTE
      invariant pos <= p <= |d| && StringEnd(d, pos) == StringEnd(d, p)
    {
      if d[p] < 0x20 {
        return None;
      }
      if d[p] == BACKSLASH {
        p := p + 1;
        if p == |d| {
          return None;
        }
      }
      p := p + 1;
    }
    r := if p == |d| then None else Some(p + 1);
  }

  method ScalarSpan(d: seq<byte>, pos: nat) returns (r: nat)
    requires pos <= |d|
    ensures r == ScalarEnd(d, pos)
  {
    r := pos;
    while r < |d| && !EndsScalar(d[r])
      invariant pos <= r <= |d| && ScalarEnd(d, pos) == ScalarEnd(d, r)
    {
      r := r + 1;
    }
  }

  /** value_span: the cursor moves forward through d and never past its end. */
  method ValueSpan(d: seq<byte>, pos: nat, depth: nat) returns (r: Option<Extent>)
    requires pos <= |d|
    ensures r == Span(d, pos, depth)
    decreases |d| - pos, 0
  {
    if depth > MAX_DEPTH {
      return None;
    }
    var p := SkipSpace(d, pos);
    if p == |d| {
      return None;
    }
    if d[p] == QUOTE {
      var e := StringSpan(d, p + 1);
      r := if e.None? then None else Some(Extent(p, e.value));
    } else if d[p] == 0x7B || d[p] == 0x5B {
      var q := SkipSpace(d, p + 1);
      var e := Members(d, q, depth, d[p] == 0x7B);
      r := if e.None? then None else Some(Extent(p, e.value));
    } else {
      var e := ScalarSpan(d, p);
      r := if e == p then None else Some(Extent(p, e));
    }
  }

  method Members(d: seq<byte>, pos: nat, depth: nat, keyed: bool) returns (r: Option<nat>)
    requires pos <= |d|
    ensures r == Items(d, pos, depth, keyed)
    decreases |d| - pos, 2
  {
    hide Item, Skip;
    var close := if keyed then 0x7D else 0x5D;
    var p := pos;
    while p < |d| && d[p] != close
      invariant pos <= p <= |d| && Items(d, pos, depth, keyed) == Items(d, p, depth, keyed)
      decreases |d| - p
    {
      var e := Member(d, p, depth, keyed);
      if e.None? {
        return None;
      }
      p := SkipSpace(d, e.value);
      if p == |d| {
        return None;
      }
      if d[p] == close {
        break;
      }
      if d[p] != 0x2C {
        return None;
      }
      p := SkipSpace(d, p + 1);
      if p == |d| || d[p] == close {
        return None;
      }
    }
    r := if p == |d| then None else Some(p + 1);
  }

  method Member(d: seq<byte>, pos: nat, depth: nat, keyed: bool) returns (r: Option<nat>)
    requires pos <= |d|
    ensures r == Item(d, pos, depth, keyed)
    decreases |d| - pos, 1
  {
    var part := ValueSpan(d, pos, depth + 1);
    if part.None? || !keyed {
      return if part.None? then None else Some(part.value.end);
    }
    var c := SkipSpace(d, part.value.end);
    if d[part.value.start] != QUOTE || c == |d| || d[c] != 0x3A {
      return None;
    }
    part := ValueSpan(d, c + 1, depth + 1);
    r := if part.None? then None else Some(part.value.end);
  }

  // ----- what follows a value does not change it ---------------------------

  lemma {:induction false} SkipStable(d: seq<byte>, pos: nat, suffix: seq<byte>)
    requires pos <= |d| && Skip(d, pos) < |d|
    ensures Skip(d + suffix, pos) == Skip(d, pos)
    decreases |d| - pos
  {
    if Space(d[pos]) {
      SkipStable(d, pos + 1, suffix);
    }
  }

  lemma {:induction false} StringStable(d: seq<byte>, pos: nat, suffix: seq<byte>)
    requires pos <= |d| && StringEnd(d, pos).Some?
    ensures StringEnd(d + suffix, pos) == StringEnd(d, pos)
    decreases |d| - pos
  {
    if d[pos] != QUOTE {
      StringStable(d, if d[pos] == BACKSLASH then pos + 2 else pos + 1, suffix);
    }
  }

  lemma {:induction false} ScalarStable(d: seq<byte>, pos: nat, suffix: seq<byte>)
    requires pos <= |d| && ScalarEnd(d, pos) < |d|
    ensures ScalarEnd(d + suffix, pos) == ScalarEnd(d, pos)
    decreases |d| - pos
  {
    if !EndsScalar(d[pos]) {
      ScalarStable(d, pos + 1, suffix);
    }
  }

  predicate Delimited(b: byte) {
    b == QUOTE || b == 0x7B || b == 0x5B
  }

  /**
   * A scanned value is not changed by what is appended to the input, unless it
   * is a bare word that ran to the end of it.
   */
  lemma {:induction false} SpanStable(d: seq<byte>, pos: nat, depth: nat, suffix: seq<byte>)
    requires pos <= |d| && Span(d, pos, depth).Some?
    requires var x := Span(d, pos, depth).value; x.end < |d| || Delimited(d[x.start])
    ensures Span(d + suffix, pos, depth) == Span(d, pos, depth)
    decreases |d| - pos, 0
  {
    var p := Skip(d, pos);
    SkipStable(d, pos, suffix);
    if d[p] == QUOTE {
      StringStable(d, p + 1, suffix);
    } else if d[p] == 0x7B || d[p] == 0x5B {
      var q := Skip(d, p + 1);
      SkipStable(d, p + 1, suffix);
      ItemsStable(d, q, depth, d[p] == 0x7B, suffix);
    } else {
      ScalarStable(d, p, suffix);
    }
  }

  lemma {:induction false} ItemsStable(d: seq<byte>, pos: nat, depth: nat, keyed: bool, suffix: seq<byte>)
    requires pos <= |d| && Items(d, pos, depth, keyed).Some?
    ensures Items(d + suffix, pos, depth, keyed) == Items(d, pos, depth, keyed)
    decreases |d| - pos, 2
  {
    hide Item, Skip;
    var close := if keyed then 0x7D else 0x5D;
    if d[pos] != close {
      var e := Item(d, pos, depth, keyed).value;
      var s := Skip(d, e);
      ItemStable(d, pos, depth, keyed, suffix);
      SkipStable(d, e, suffix);
      if d[s] != close {
        SkipStable(d, s + 1, suffix);
        ItemsStable(d, Skip(d, s + 1), depth, keyed, suffix);
      }
    }
  }

  lemma {:induction false} ItemStable(d: seq<byte>, pos: nat, depth: nat, keyed: bool, suffix: seq<byte>)
    requires pos <= |d| && Item(d, pos, depth, keyed).Some?
    requires Skip(d, Item(d, pos, depth, keyed).value) < |d|
    ensures Item(d + suffix, pos, depth, keyed) == Item(d, pos, depth, keyed)
    decreases |d| - pos, 1
  {
    var part := Span(d, pos, depth + 1).value;
    SpanStable(d, pos, depth + 1, suffix);
    if keyed {
      var c := Skip(d, part.end);
      SkipStable(d, part.end, suffix);
      SpanStable(d, c + 1, depth + 1, suffix);
    }
  }

  // ----- reading -----------------------------------------------------------

  function HexValue(b: byte): (r: Option<nat>)
    ensures r.Some? ==> r.value < 16
  {
    if 0x30 <= b <= 0x39 then Some(b - 0x30)
    else if 0x61 <= b <= 0x66 then Some(b - 0x61 + 10)
    else if 0x41 <= b <= 0x46 then Some(b - 0x41 + 10)
    else None
  }

  /** Four hexadecimal digits at the head of s. */
  function Hex4(s: seq<byte>): (r: Option<nat>)
    ensures r.Some? ==> r.value < 0x1_0000 && |s| >= 4
  {
    if |s| < 4 then None
    else
      var a, b, c, d := HexValue(s[0]), HexValue(s[1]), HexValue(s[2]), HexValue(s[3]);
      if a.None? || b.None? || c.None? || d.None? then None
      else Some(((a.value * 16 + b.value) * 16 + c.value) * 16 + d.value)
  }

  datatype Piece = Piece(bytes: seq<byte>, consumed: nat)

  /** The bytes a \u escape stands for: s starts after the u. */
  function UnicodeEscape(s: seq<byte>): (r: Option<Piece>)
    ensures r.Some? ==> 4 <= r.value.consumed <= |s| && 1 <= |r.value.bytes| <= 4
  {
    var high := Hex4(s);
    if high.None? then None
    else if 0xD800 <= high.value <= 0xDBFF then
      if |s| < 10 || s[4] != BACKSLASH || s[5] != 0x75 then None
      else
        var low := Hex4(s[6..]);
        if low.None? || low.value < 0xDC00 || 0xDFFF < low.value then None
        else
          var code := 0x1_0000 + (high.value - 0xD800) * 0x400 + (low.value - 0xDC00);
          Some(Piece(Utf8.Encode(code), 10))
    else if 0xDC00 <= high.value <= 0xDFFF then None
    else Some(Piece(Utf8.Encode(high.value), 4))
  }

  function SimpleEscape(b: byte): (r: Option<byte>) {
    if b == 0x6E then Some(0x0A)
    else if b == 0x72 then Some(0x0D)
    else if b == 0x74 then Some(0x09)
    else if b == 0x62 then Some(0x08)
    else if b == 0x66 then Some(0x0C)
    else if b == QUOTE || b == BACKSLASH || b == 0x2F then Some(b)
    else None
  }

  /** One turn of the string reader's loop. */
  function Unescape1(s: seq<byte>): (r: Option<Piece>)
    requires s != []
    ensures r.Some? ==> 1 <= r.value.consumed <= |s| && 1 <= |r.value.bytes|
  {
    if s[0] != BACKSLASH then Some(Piece([s[0]], 1))
    else if |s| == 1 then None
    else if s[1] == 0x75 then
      var u := UnicodeEscape(s[2..]);
      if u.None? then None else Some(Piece(u.value.bytes, 2 + u.value.consumed))
    else
      var b := SimpleEscape(s[1]);
      if b.None? then None else Some(Piece([b.value], 2))
  }

  function Unescape(s: seq<byte>): (r: Option<seq<byte>>) {
    if s == [] then Some([])
    else
      var first := Unescape1(s);
      if first.None? then None
      else
        var rest := Unescape(s[first.value.consumed..]);
        if rest.None? then None else Some(first.value.bytes + rest.value)
  }

  /** What the string reader returns for a scanned value. */
  function TextOf(value: seq<byte>): (r: Option<seq<byte>>) {
    if |value| < 2 || value[0] != QUOTE || value[|value| - 1] != QUOTE then None
    else
      var s := Unescape(value[1..|value| - 1]);
      // One byte of the bound is kept for the terminator.
      if s.None? || |s.value| >= MAX_TEXT_BYTES || !Utf8.Valid(s.value, false) then None else s
  }

  /** The reader's answer for s behind what it has already produced. */
  ghost function Behind(out: seq<byte>, s: seq<byte>): (r: Option<seq<byte>>) {
    var rest := Unescape(s);
    if rest.None? then None else Some(out + rest.value)
  }

  lemma BehindNothing(s: seq<byte>)
    ensures Behind([], s) == Unescape(s)
  {
    hide Unescape;
    var rest := Unescape(s);
    if rest.Some? {
      assert [] + rest.value == rest.value;
    }
  }

  lemma BehindAll(out: seq<byte>)
    ensures Behind(out, []) == Some(out)
  {
    assert Unescape([]) == Some([]) && out + [] == out;
  }

  lemma BehindLonger(out: seq<byte>, s: seq<byte>)
    ensures Behind(out, s).Some? ==> |Behind(out, s).value| >= |out|
  {
    hide Unescape;
  }

  lemma UnescapeSplit(s: seq<byte>, out: seq<byte>)
    requires s != []
    ensures Unescape1(s).None? ==> Behind(out, s) == None
    ensures Unescape1(s).Some? ==>
      var p := Unescape1(s).value; Behind(out, s) == Behind(out + p.bytes, s[p.consumed..])
  {
    if Unescape1(s).Some? {
      var p := Unescape1(s).value;
      var rest := Unescape(s[p.consumed..]);
      if rest.Some? {
        assert out + (p.bytes + rest.value) == out + p.bytes + rest.value;
      }
    }
  }

  method ReadString(value: seq<byte>) returns (r: Option<seq<byte>>)
    ensures r == TextOf(value)
  {
    if |value| < 2 || value[0] != QUOTE || value[|value| - 1] != QUOTE {
      return None;
    }
    hide Unescape1, Unescape, Behind, Utf8.Valid;
    var body := value[1..|value| - 1];
    var pos := 0;
    var out: seq<byte> := [];
    ghost var whole := Unescape(body);
    assert body[0..] == body;
    BehindNothing(body);
    while pos < |body|
      invariant 0 <= pos <= |body| && |out| <= MAX_TEXT_BYTES
      invariant whole == Behind(out, body[pos..])
    {
      ghost var rest := body[pos..];
      var piece := Unescape1(body[pos..]);
      UnescapeSplit(rest, out);
      if piece.None? {
        return None;
      }
      if |out| + |piece.value.bytes| > MAX_TEXT_BYTES {
        BehindLonger(out + piece.value.bytes, rest[piece.value.consumed..]);
        return None;
      }
      assert rest[piece.value.consumed..] == body[pos + piece.value.consumed..];
      out := out + piece.value.bytes;
      pos := pos + piece.value.consumed;
    }
    assert body[pos..] == [];
    BehindAll(out);
    var good := Utf8.Validate(out, false);
    r := if good && |out| + 1 <= MAX_TEXT_BYTES then Some(out) else None;
  }

  // ----- writing then reading ------------------------------------------------

  /** Latin-1 byte b is the scalar value b. */
  function Transcode(s: seq<byte>): (r: seq<byte>) {
    if s == [] then [] else Utf8.Encode(s[0]) + Transcode(s[1..])
  }

  /** What reading back a written string should give. */
  function Meaning(s: seq<byte>, latin1: bool): (r: seq<byte>) {
    if latin1 then Transcode(s) else s
  }

  lemma {:induction false} EscapeFront(s: seq<byte>, latin1: bool)
    requires s != []
    ensures EscapeAll(s, latin1) == EscapeByte(s[0], latin1) + EscapeAll(s[1..], latin1)
  {
    hide EscapeByte;
    if |s| == 1 {
      assert s[..0] == [] && s[1..] == [];
    } else {
      var front := s[..|s| - 1];
      EscapeFront(front, latin1);
      assert front[1..] == s[1..][..|s| - 2];
    }
  }

  lemma HexDigitValue(n: nat)
    requires n < 16
    ensures HexValue(HexDigit(n)) == Some(n)
  {
  }

  /** One written byte, whatever follows it, is one turn of the reader. */
  lemma Unescape1Escape(b: byte, latin1: bool, rest: seq<byte>)
    ensures Unescape1(EscapeByte(b, latin1) + rest)
         == Some(Piece(Meaning([b], latin1), |EscapeByte(b, latin1)|))
  {
    var e := EscapeByte(b, latin1);
    assert Transcode([b]) == Utf8.Encode(b);
    if |e| == 6 {
      var t := (e + rest)[2..];
      assert t[0] == 0x30 && t[1] == 0x30 && t[2] == e[4] && t[3] == e[5];
      HexDigitValue(b / 16);
      HexDigitValue(b % 16);
      HexDigitValue(0);
      assert Hex4(t) == Some(b);
    }
  }

  lemma MeaningFront(s: seq<byte>, latin1: bool)
    requires s != []
    ensures Meaning(s, latin1) == Meaning([s[0]], latin1) + Meaning(s[1..], latin1)
  {
    assert Transcode([s[0]]) == Utf8.Encode(s[0]);
    assert s == [s[0]] + s[1..];
  }

  lemma UnescapeFront(s: seq<byte>, bytes: seq<byte>, head: seq<byte>, rest: seq<byte>)
    requires s == head + rest && head != []
    requires Unescape1(s) == Some(Piece(bytes, |head|)) && Unescape(rest).Some?
    ensures Unescape(s) == Some(bytes + Unescape(rest).value)
  {
    assert s[|head|..] == rest;
  }

  lemma {:induction false} UnescapeEscape(s: seq<byte>, latin1: bool)
    ensures Unescape(EscapeAll(s, latin1)) == Some(Meaning(s, latin1))
  {
    if s != [] {
      var e, rest := EscapeByte(s[0], latin1), EscapeAll(s[1..], latin1);
      EscapeFront(s, latin1);
      Unescape1Escape(s[0], latin1, rest);
      UnescapeEscape(s[1..], latin1);
      UnescapeFront(e + rest, Meaning([s[0]], latin1), e, rest);
      MeaningFront(s, latin1);
    }
  }

  lemma {:induction false} TranscodeValid(s: seq<byte>)
    ensures Utf8.Valid(Transcode(s), false) <==> 0 !in s
  {
    if s != [] {
      var e, rest := Utf8.Encode(s[0]), Transcode(s[1..]);
      TranscodeValid(s[1..]);
      if s[0] == 0 {
        assert Utf8.Step(e + rest, false).None? by {
          Utf8.Accumulated(0, (e + rest)[1..1]);
        }
      } else {
        Utf8.StepComplete(s[0], rest, false);
        assert (e + rest)[|e|..] == rest;
      }
    }
  }

  /**
   * Section 7 of RFC 8259, both ways: what was written is read back, and it is
   * refused exactly when it is not NUL-free UTF-8 or is too long.
   */
  lemma StringRoundTrip(s: seq<byte>, latin1: bool)
    ensures var m := Meaning(s, latin1);
      TextOf(Quoted(s, latin1))
        == if |m| < MAX_TEXT_BYTES && (if latin1 then 0 !in s else Utf8.Valid(s, false)) then Some(m) else None
  {
    var q := Quoted(s, latin1);
    assert q[1..|q| - 1] == EscapeAll(s, latin1);
    UnescapeEscape(s, latin1);
    TranscodeValid(s);
  }

  lemma SixBytes(d: seq<byte>, pos: nat, e: seq<byte>)
    requires |e| == 6 && pos + 6 <= |d| && d[pos..pos + 6] == e
    ensures d[pos] == e[0] && d[pos + 1] == e[1] && d[pos + 2] == e[2] && d[pos + 3] == e[3] && d[pos + 4] == e[4] && d[pos + 5] == e[5]
  {
    assert d[pos] == d[pos..pos + 6][0] && d[pos + 1] == d[pos..pos + 6][1] && d[pos + 2] == d[pos..pos + 6][2];
    assert d[pos + 3] == d[pos..pos + 6][3] && d[pos + 4] == d[pos..pos + 6][4] && d[pos + 5] == d[pos..pos + 6][5];
  }

  lemma StringEndByte(d: seq<byte>, pos: nat, b: byte, latin1: bool)
    requires pos + |EscapeByte(b, latin1)| <= |d|
    requires d[pos..pos + |EscapeByte(b, latin1)|] == EscapeByte(b, latin1)
    ensures StringEnd(d, pos) == StringEnd(d, pos + |EscapeByte(b, latin1)|)
  {
    var e := EscapeByte(b, latin1);
    assert forall k :: 0 <= k < |e| ==> d[pos + k] == d[pos..pos + |e|][k] == e[k];
    if |e| == 6 {
      SixBytes(d, pos, e);
      assert StringEnd(d, pos + 2) == StringEnd(d, pos + 3);
      assert StringEnd(d, pos + 3) == StringEnd(d, pos + 4);
      assert StringEnd(d, pos + 4) == StringEnd(d, pos + 5);
    }
  }

  /** Escaped text holds no bare quote and no control byte, so the scanner runs through it. */
  lemma {:induction false} StringEndEscaped(d: seq<byte>, pos: nat, s: seq<byte>, latin1: bool)
    requires pos <= |d| && EscapeAll(s, latin1) <= d[pos..]
    ensures pos + |EscapeAll(s, latin1)| <= |d|
    ensures StringEnd(d, pos) == StringEnd(d, pos + |EscapeAll(s, latin1)|)
    decreases |s|
  {
    hide EscapeByte, StringEnd;
    if s != [] {
      var e, rest := EscapeByte(s[0], latin1), EscapeAll(s[1..], latin1);
      EscapeFront(s, latin1);
      var all := d[pos..];
      assert rest == (e + rest)[|e|..] <= all[|e|..] == d[pos + |e|..];
      assert e == all[..|e|] == d[pos..pos + |e|];
      StringEndByte(d, pos, s[0], latin1);
      StringEndEscaped(d, pos + |e|, s[1..], latin1);
    } else {
      assert EscapeAll(s, latin1) == [];
    }
  }

  /** Scanning a written string, whatever stands before and after it, takes exactly that string. */
  lemma SpanOfQuoted(before: seq<byte>, s: seq<byte>, latin1: bool, after: seq<byte>, depth: nat)
    requires depth <= MAX_DEPTH
    ensures var q := Quoted(s, latin1);
      Span(before + q + after, |before|, depth) == Some(Extent(|before|, |before| + |q|))
  {
    var q := Quoted(s, latin1);
    var d := before + q + after;
    var pos := |before|;
    var e := EscapeAll(s, latin1);
    assert d[pos] == q[0] == QUOTE;
    assert d[pos + 1..] == e + [QUOTE] + after;
    StringEndEscaped(d, pos + 1, s, latin1);
    assert d[pos + 1 + |e|] == d[pos + 1..][|e|] == QUOTE;
  }

  // ----- the other escapes a writer may use ---------------------------------

  function HexCase(n: nat, upper: bool): (b: byte)
    requires n < 16
    ensures HexValue(b) == Some(n)
  {
    if upper && n >= 10 then 0x41 + n - 10 else HexDigit(n)
  }

  function Hex4Of(n: nat, upper: bool): (r: seq<byte>)
    requires n < 0x1_0000
    ensures |r| == 4
  {
    var x := n / 16;
    var y := x / 16;
    [HexCase(y / 16, upper), HexCase(y % 16, upper), HexCase(x % 16, upper), HexCase(n % 16, upper)]
  }

  /** Any scalar value as \u escapes: one, or a surrogate pair. */
  function ScalarEscape(c: Utf8.Scalar, upper: bool): (r: seq<byte>)
    ensures |r| == if c < 0x1_0000 then 6 else 12
  {
    if c < 0x1_0000 then [BACKSLASH, 0x75] + Hex4Of(c, upper)
    else
      var v: int := c - 0x1_0000;
      [BACKSLASH, 0x75] + Hex4Of(0xD800 + v / 0x400, upper)
        + [BACKSLASH, 0x75] + Hex4Of(0xDC00 + v % 0x400, upper)
  }

  lemma Hex4RoundTrip(n: nat, upper: bool, rest: seq<byte>)
    requires n < 0x1_0000
    ensures Hex4(Hex4Of(n, upper) + rest) == Some(n)
  {
  }

  lemma PairReads(s: seq<byte>, high: nat, low: nat)
    requires 0xD800 <= high <= 0xDBFF && 0xDC00 <= low <= 0xDFFF && |s| >= 10
    requires Hex4(s) == Some(high) && s[4] == BACKSLASH && s[5] == 0x75 && Hex4(s[6..]) == Some(low)
    ensures UnicodeEscape(s)
         == Some(Piece(Utf8.Encode(0x1_0000 + (high - 0xD800) * 0x400 + (low - 0xDC00)), 10))
  {
  }

  lemma PairEscapeReads(high: nat, low: nat, upper: bool, rest: seq<byte>)
    requires 0xD800 <= high <= 0xDBFF && 0xDC00 <= low <= 0xDFFF
    ensures UnicodeEscape(Hex4Of(high, upper) + ([BACKSLASH, 0x75] + (Hex4Of(low, upper) + rest)))
         == Some(Piece(Utf8.Encode(0x1_0000 + (high - 0xD800) * 0x400 + (low - 0xDC00)), 10))
  {
    var last := Hex4Of(low, upper) + rest;
    var tail := [BACKSLASH, 0x75] + last;
    var t := Hex4Of(high, upper) + tail;
    Hex4RoundTrip(high, upper, tail);
    Hex4RoundTrip(low, upper, rest);
    assert t[4] == tail[0] && t[5] == tail[1];
    assert t[6..] == last;
    PairReads(t, high, low);
  }

  lemma Associate(a: seq<byte>, b: seq<byte>, c: seq<byte>, d: seq<byte>, e: seq<byte>)
    ensures a + b + c + d + e == a + (b + (c + (d + e)))
  {
  }

  lemma Unescape1Unicode(x: seq<byte>)
    requires UnicodeEscape(x).Some?
    ensures var u := UnicodeEscape(x).value;
      Unescape1([BACKSLASH, 0x75] + x) == Some(Piece(u.bytes, 2 + u.consumed))
  {
    assert ([BACKSLASH, 0x75] + x)[2..] == x;
  }

  lemma ScalarEscapePair(c: Utf8.Scalar, upper: bool, rest: seq<byte>) returns (high: nat, low: nat)
    requires 0x1_0000 <= c
    ensures 0xD800 <= high <= 0xDBFF && 0xDC00 <= low <= 0xDFFF
    ensures 0x1_0000 + (high - 0xD800) * 0x400 + (low - 0xDC00) == c
    ensures ScalarEscape(c, upper) + rest
         == [BACKSLASH, 0x75] + (Hex4Of(high, upper) + ([BACKSLASH, 0x75] + (Hex4Of(low, upper) + rest)))
  {
    var v: int := c - 0x1_0000;
    high, low := 0xD800 + v / 0x400, 0xDC00 + v % 0x400;
    Associate([BACKSLASH, 0x75], Hex4Of(high, upper), [BACKSLASH, 0x75], Hex4Of(low, upper), rest);
  }

  /** Every scalar value spelled as \u escapes is read as its UTF-8 encoding. */
  lemma ScalarEscapeReads(c: Utf8.Scalar, upper: bool, rest: seq<byte>)
    ensures Unescape1(ScalarEscape(c, upper) + rest)
         == Some(Piece(Utf8.Encode(c), |ScalarEscape(c, upper)|))
  {
    if c < 0x1_0000 {
      var x := Hex4Of(c, upper) + rest;
      assert ScalarEscape(c, upper) + rest == [BACKSLASH, 0x75] + x;
      Hex4RoundTrip(c, upper, rest);
      Unescape1Unicode(x);
    } else {
      var high, low := ScalarEscapePair(c, upper, rest);
      PairEscapeReads(high, low, upper, rest);
      Unescape1Unicode(Hex4Of(high, upper) + ([BACKSLASH, 0x75] + (Hex4Of(low, upper) + rest)));
    }
  }
}

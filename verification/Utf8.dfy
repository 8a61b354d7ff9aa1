/**
 * The UTF-8 validator and what it accepts, against the encoding table of
 * section 4 of RFC 3629.
 *
 * A turn of the validator's loop accepts one encoding and nothing else.
 */
module Utf8 {
  import opened Bytes

  predicate IsScalar(c: int) {
    0 <= c < 0xD800 || 0xE000 <= c < 0x11_0000
  }

  type Scalar = c: int | 0 <= c < 0xD800 || 0xE000 <= c < 0x11_0000

  /** The reference: the encoding table of RFC 3629. */
  function Encode(c: Scalar): (r: seq<byte>)
    ensures 1 <= |r| <= 4
  {
    if c < 0x80 then [c]
    else
      var a: int, x: int := c % 0x40, c / 0x40;
      if c < 0x800 then [0xC0 + x, 0x80 + a]
      else
        var b: int, y: int := x % 0x40, x / 0x40;
        if c < 0x1_0000 then [0xE0 + y, 0x80 + b, 0x80 + a]
        else [0xF0 + y / 0x40, 0x80 + y % 0x40, 0x80 + b, 0x80 + a]
  }

  function EncodeAll(cs: seq<Scalar>): (r: seq<byte>) {
    if cs == [] then [] else Encode(cs[0]) + EncodeAll(cs[1..])
  }

  ghost predicate Spells(data: seq<byte>, allowNul: bool, cs: seq<Scalar>) {
    data == EncodeAll(cs) && (allowNul || 0 !in cs)
  }

  /** A byte string is text when it spells some sequence of scalar values. */
  ghost predicate IsText(data: seq<byte>, allowNul: bool) {
    exists cs :: Spells(data, allowNul, cs)
  }

  predicate Continuation(b: byte) {
    0x80 <= b < 0xC0
  }

  /** The six payload bits of a continuation byte. */
  function Bits(b: byte): (r: nat)
    ensures r < 0x40
    ensures Continuation(b) ==> r == b - 0x80
  {
    b % 0x40
  }

  /** The shift-and-or of the inner loop, six payload bits a byte. */
  function Accumulate(v: nat, s: seq<byte>): (r: nat) {
    if s == [] then v else Accumulate(v, s[..|s| - 1]) * 0x40 + Bits(s[|s| - 1])
  }

  /** How many continuation bytes a lead byte announces, if it is a lead byte. */
  function Tail(first: byte): (r: Option<nat>)
    ensures r.Some? ==> r.value <= 3
  {
    if first < 0x80 then Some(0)
    else if 0xC2 <= first <= 0xDF then Some(1)
    else if 0xE0 <= first <= 0xEF then Some(2)
    else if 0xF0 <= first <= 0xF4 then Some(3)
    else None
  }

  function LeadBits(first: byte): (r: nat) {
    if first < 0xC0 then first
    else if first < 0xE0 then first - 0xC0
    else if first < 0xF0 then first - 0xE0
    else first - 0xF0
  }

  function Minimum(tail: nat): (r: nat) {
    if tail == 0 then 0 else if tail == 1 then 0x80 else if tail == 2 then 0x800 else 0x1_0000
  }

  /** One turn of the validator's outer loop: the length of the first character, if it is well formed. */
  function Step(data: seq<byte>, allowNul: bool): (n: Option<nat>)
    requires data != []
    ensures n.Some? ==> 1 <= n.value <= |data|
  {
    var t := Tail(data[0]);
    if t.None? || |data| < 1 + t.value then None
    else if exists k | 1 <= k <= t.value :: !Continuation(data[k]) then None
    else
      var v := Accumulate(LeadBits(data[0]), data[1..1 + t.value]);
      if IsScalar(v) && Minimum(t.value) <= v && (v != 0 || allowNul) then Some(1 + t.value) else None
  }

  predicate Valid(data: seq<byte>, allowNul: bool) {
    data == [] || (var n := Step(data, allowNul); n.Some? && Valid(data[n.value..], allowNul))
  }

  /** Accumulating a short tail, spelled out. */
  lemma Accumulated(v: nat, s: seq<byte>)
    requires |s| <= 3
    ensures |s| == 0 ==> Accumulate(v, s) == v
    ensures |s| == 1 ==> Accumulate(v, s) == v * 0x40 + Bits(s[0])
    ensures |s| == 2 ==> Accumulate(v, s) == (v * 0x40 + Bits(s[0])) * 0x40 + Bits(s[1])
    ensures |s| == 3 ==> Accumulate(v, s) == ((v * 0x40 + Bits(s[0])) * 0x40 + Bits(s[1])) * 0x40 + Bits(s[2])
  {
    if s != [] {
      Accumulated(v, s[..|s| - 1]);
    }
  }

  lemma Split64(q: int, r: int)
    requires 0 <= r < 0x40
    ensures (q * 0x40 + r) / 0x40 == q && (q * 0x40 + r) % 0x40 == r
  {
  }

  lemma Encode2(f: nat, a: nat)
    requires 2 <= f < 0x20 && a < 0x40
    ensures Encode(f * 0x40 + a) == [0xC0 + f, 0x80 + a]
  {
    Split64(f, a);
  }

  lemma Encode3(f: nat, a: nat, b: nat)
    requires f < 0x10 && a < 0x40 && b < 0x40
    requires var v := (f * 0x40 + a) * 0x40 + b; 0x800 <= v && IsScalar(v)
    ensures Encode((f * 0x40 + a) * 0x40 + b) == [0xE0 + f, 0x80 + a, 0x80 + b]
  {
    Split64(f, a);
    Split64(f * 0x40 + a, b);
  }

  lemma Encode4(f: nat, a: nat, b: nat, c: nat)
    requires f < 8 && a < 0x40 && b < 0x40 && c < 0x40
    requires var v := ((f * 0x40 + a) * 0x40 + b) * 0x40 + c; 0x1_0000 <= v && IsScalar(v)
    ensures Encode(((f * 0x40 + a) * 0x40 + b) * 0x40 + c) == [0xF0 + f, 0x80 + a, 0x80 + b, 0x80 + c]
  {
    Split64(f, a);
    Split64(f * 0x40 + a, b);
    Split64((f * 0x40 + a) * 0x40 + b, c);
  }

  /** What a turn that accepts has found. */
  lemma StepParts(data: seq<byte>, allowNul: bool)
    requires data != [] && Step(data, allowNul).Some?
    ensures Tail(data[0]).Some? && |data| >= 1 + Tail(data[0]).value
    ensures var t := Tail(data[0]).value;
      var v := Accumulate(LeadBits(data[0]), data[1..1 + t]);
      && Step(data, allowNul) == Some(1 + t) && (forall k :: 1 <= k <= t ==> Continuation(data[k]))
      && IsScalar(v) && Minimum(t) <= v && (v != 0 || allowNul)
  {
    hide Accumulate, LeadBits, IsScalar, Minimum, Tail;
  }

  lemma Sound1(first: byte)
    requires first < 0x80
    ensures Accumulate(LeadBits(first), []) == first && Encode(first) == [first]
  {
  }

  lemma Sound2(first: byte, s: seq<byte>)
    requires 0xC2 <= first <= 0xDF && |s| == 1 && Continuation(s[0])
    ensures IsScalar(Accumulate(LeadBits(first), s)) && Encode(Accumulate(LeadBits(first), s)) == [first] + s
  {
    hide Encode, Accumulate;
    var a: int := s[0] - 0x80;
    Accumulated(LeadBits(first), s);
    Encode2(first - 0xC0, a);
    assert s == [0x80 + a];
  }

  lemma Sound3(first: byte, s: seq<byte>)
    requires 0xE0 <= first <= 0xEF && |s| == 2 && Continuation(s[0]) && Continuation(s[1])
    requires var v := Accumulate(LeadBits(first), s); IsScalar(v) && v >= 0x800
    ensures Encode(Accumulate(LeadBits(first), s)) == [first] + s
  {
    hide Encode, Accumulate;
    var a: int, b: int := s[0] - 0x80, s[1] - 0x80;
    Accumulated(LeadBits(first), s);
    Encode3(first - 0xE0, a, b);
    assert s == [0x80 + a, 0x80 + b];
  }

  lemma Sound4(first: byte, s: seq<byte>)
    requires 0xF0 <= first <= 0xF4 && |s| == 3 && Continuation(s[0]) && Continuation(s[1]) && Continuation(s[2])
    requires var v := Accumulate(LeadBits(first), s); IsScalar(v) && v >= 0x1_0000
    ensures Encode(Accumulate(LeadBits(first), s)) == [first] + s
  {
    hide Encode, Accumulate;
    var a: int, b: int, c: int := s[0] - 0x80, s[1] - 0x80, s[2] - 0x80;
    Accumulated(LeadBits(first), s);
    Encode4(first - 0xF0, a, b, c);
    assert s == [0x80 + a, 0x80 + b, 0x80 + c];
  }

  /** Whatever one turn accepts is the encoding of a scalar value. */
  lemma StepSound(data: seq<byte>, allowNul: bool) returns (c: Scalar)
    requires data != [] && Step(data, allowNul).Some?
    ensures data[..Step(data, allowNul).value] == Encode(c) && (c != 0 || allowNul)
  {
    hide Encode, Accumulate, Step, LeadBits, Continuation;
    StepParts(data, allowNul);
    var first, t := data[0], Tail(data[0]).value;
    var s := data[1..1 + t];
    c := Accumulate(LeadBits(first), s);
    assert data[..1 + t] == [first] + s;
    assert forall k :: 0 <= k < t ==> s[k] == data[k + 1] && Continuation(s[k]);
    if t == 0 {
      Sound1(first);
      assert s == [] && [first] + [] == [first];
    } else if t == 1 {
      Sound2(first, s);
    } else if t == 2 {
      Sound3(first, s);
    } else {
      Sound4(first, s);
    }
  }

  /** Every encoding of a permitted scalar value, whatever follows, is one turn. */
  lemma StepComplete(c: Scalar, rest: seq<byte>, allowNul: bool)
    requires c != 0 || allowNul
    ensures Step(Encode(c) + rest, allowNul) == Some(|Encode(c)|)
  {
    var e := Encode(c);
    var data := e + rest;
    var t := |e| - 1;
    EncodeShape(c);
    assert data[0] == e[0] && data[1..1 + t] == e[1..];
    assert forall k :: 1 <= k <= t ==> data[k] == e[k];
    Accumulated(LeadBits(e[0]), e[1..]);
  }

  lemma EncodeShape(c: Scalar)
    ensures var e := Encode(c);
      && Tail(e[0]) == Some(|e| - 1) && Minimum(|e| - 1) <= c
      && (forall k :: 1 <= k < |e| ==> Continuation(e[k]))
      && Accumulate(LeadBits(e[0]), e[1..]) == c
  {
    var e := Encode(c);
    Accumulated(LeadBits(e[0]), e[1..]);
  }

  lemma {:induction false} ValidSound(data: seq<byte>, allowNul: bool) returns (cs: seq<Scalar>)
    requires Valid(data, allowNul)
    ensures Spells(data, allowNul, cs)
  {
    hide Encode, Step;
    if data == [] {
      cs := [];
    } else {
      var n := Step(data, allowNul).value;
      var c := StepSound(data, allowNul);
      var rest := ValidSound(data[n..], allowNul);
      cs := [c] + rest;
      assert cs[1..] == rest && data == data[..n] + data[n..];
    }
  }

  lemma {:induction false} ValidComplete(cs: seq<Scalar>, allowNul: bool)
    requires allowNul || 0 !in cs
    ensures Valid(EncodeAll(cs), allowNul)
  {
    if cs != [] {
      var e, rest := Encode(cs[0]), EncodeAll(cs[1..]);
      StepComplete(cs[0], rest, allowNul);
      assert (e + rest)[|e|..] == rest;
      ValidComplete(cs[1..], allowNul);
    }
  }

  /** The validator accepts exactly the concatenations of encodings of scalar values. */
  lemma ValidIsText(data: seq<byte>, allowNul: bool)
    ensures Valid(data, allowNul) <==> IsText(data, allowNul)
  {
    if Valid(data, allowNul) {
      var cs := ValidSound(data, allowNul);
    }
    if IsText(data, allowNul) {
      var cs :| Spells(data, allowNul, cs);
      ValidComplete(cs, allowNul);
    }
  }

  /** Text has one reading: two scalar sequences with one spelling are the same sequence. */
  lemma {:induction false} EncodeAllInjective(a: seq<Scalar>, b: seq<Scalar>)
    requires EncodeAll(a) == EncodeAll(b)
    ensures a == b
  {
    if a != [] && b != [] {
      var data := EncodeAll(a);
      StepComplete(a[0], EncodeAll(a[1..]), true);
      StepComplete(b[0], EncodeAll(b[1..]), true);
      var n := |Encode(a[0])|;
      assert Encode(a[0]) == data[..n] == Encode(b[0]);
      EncodeInjective(a[0], b[0]);
      assert EncodeAll(a[1..]) == data[n..] == EncodeAll(b[1..]);
      EncodeAllInjective(a[1..], b[1..]);
    }
  }

  lemma EncodeInjective(a: Scalar, b: Scalar)
    requires Encode(a) == Encode(b)
    ensures a == b
  {
  }

  /** Text cut at any point is text up to at most three bytes before the cut. */
  lemma {:induction false} CutLosesAtMostThree(data: seq<byte>, cut: nat, allowNul: bool) returns (k: nat)
    requires Valid(data, allowNul) && cut <= |data|
    ensures k <= cut <= k + 3 && Valid(data[..k], allowNul)
  {
    hide Encode, Step;
    if data == [] || cut < Step(data, allowNul).value {
      k := 0;
      if data != [] {
        var c := StepSound(data, allowNul);
      }
    } else {
      var n := Step(data, allowNul).value;
      var c := StepSound(data, allowNul);
      var j := CutLosesAtMostThree(data[n..], cut - n, allowNul);
      k := n + j;
      var piece := data[n..][..j];
      assert data[..k] == Encode(c) + piece;
      StepComplete(c, piece, allowNul);
      assert data[..k][n..] == piece;
    }
  }

  /** The inner loop: the bytes a lead byte announced, or false at one that does not continue. */
  method Tailed(data: seq<byte>, start: nat, lead: nat, continuation: nat) returns (ok: bool, value: nat)
    requires start + continuation < |data|
    ensures ok <==> forall k :: start < k <= start + continuation ==> Continuation(data[k])
    ensures ok ==> value == Accumulate(lead, data[start + 1..start + 1 + continuation])
  {
    value := lead;
    var offset := 0;
    while offset < continuation
      invariant 0 <= offset <= continuation
      invariant forall k :: start < k <= start + offset ==> Continuation(data[k])
      invariant value == Accumulate(lead, data[start + 1..start + 1 + offset])
    {
      var next := data[start + 1 + offset];
      if !Continuation(next) {
        return false, value;
      }
      value := value * 0x40 + Bits(next);
      ghost var s := data[start + 1..start + 2 + offset];
      assert s[..|s| - 1] == data[start + 1..start + 1 + offset];
      offset := offset + 1;
    }
    ok := true;
  }

  /** The answer of a turn, from the lead byte and the bytes behind it. */
  lemma StepFrom(rest: seq<byte>, allowNul: bool, t: nat, v: nat, good: bool)
    requires rest != [] && Tail(rest[0]) == Some(t) && |rest| >= 1 + t
    requires good <==> forall k :: 1 <= k <= t ==> Continuation(rest[k])
    requires good ==> v == Accumulate(LeadBits(rest[0]), rest[1..1 + t])
    ensures Step(rest, allowNul) ==
      if good && IsScalar(v) && Minimum(t) <= v && (v != 0 || allowNul) then Some(1 + t) else None
  {
    hide Accumulate, LeadBits, IsScalar, Minimum, Tail, Continuation;
  }

  lemma StepNone(rest: seq<byte>, allowNul: bool)
    requires rest != [] && (Tail(rest[0]).None? || |rest| < 1 + Tail(rest[0]).value)
    ensures Step(rest, allowNul) == None
  {
  }

  /** The body of the outer loop: the length of the character at index, or none. */
  method Character(data: seq<byte>, index: nat, allowNul: bool) returns (n: Option<nat>)
    requires index < |data|
    ensures n == Step(data[index..], allowNul)
  {
    hide Step, Accumulate, Continuation;
    ghost var rest := data[index..];
    var first := data[index];
    if first < 0x80 {
      Accumulated(first, rest[1..1]);
      StepFrom(rest, allowNul, 0, first, true);
      return if first == 0 && !allowNul then None else Some(1);
    }
    var lead: nat, continuation: nat, minimum: nat;
    if 0xC2 <= first <= 0xDF {
      lead, continuation, minimum := first % 0x20, 1, 0x80;
    } else if 0xE0 <= first <= 0xEF {
      lead, continuation, minimum := first % 0x10, 2, 0x800;
    } else if 0xF0 <= first <= 0xF4 {
      lead, continuation, minimum := first % 8, 3, 0x1_0000;
    } else {
      StepNone(rest, allowNul);
      return None;
    }
    if continuation > |data| - index - 1 {
      StepNone(rest, allowNul);
      return None;
    }
    var good, value := Tailed(data, index, lead, continuation);
    assert forall k :: 1 <= k <= continuation ==> rest[k] == data[index + k];
    assert forall k :: index < k <= index + continuation ==> data[k] == rest[k - index];
    assert rest[1..1 + continuation] == data[index + 1..index + 1 + continuation];
    StepFrom(rest, allowNul, continuation, value, good);
    if !good || value < minimum || value > 0x10_FFFF || 0xD800 <= value <= 0xDFFF {
      return None;
    }
    n := Some(1 + continuation);
  }

  /** ksd_utf8_valid. */
  method Validate(data: seq<byte>, allowNul: bool) returns (ok: bool)
    ensures ok <==> Valid(data, allowNul)
  {
    hide Step;
    var index := 0;
    while index < |data|
      invariant 0 <= index <= |data|
      invariant Valid(data, allowNul) <==> Valid(data[index..], allowNul)
    {
      var n := Character(data, index, allowNul);
      if n.None? {
        return false;
      }
      assert data[index..][n.value..] == data[index + n.value..];
      index := index + n.value;
    }
    ok := true;
  }

  lemma NothingValid()
    ensures Valid([], false)
  {
  }

  /**
   * The loop that shortens a diagnostic until it is text: the longest prefix
   * that is text and no longer than the cap, losing at most three bytes more
   * than the cap does when the diagnostic itself is text.
   */
  method Truncate(data: seq<byte>, cap: nat) returns (length: nat)
    ensures length <= |data| && length <= cap
    ensures IsText(data[..length], false)
    ensures forall k :: length < k <= |data| && k <= cap ==> !IsText(data[..k], false)
    ensures IsText(data, false) ==> length == |data| || cap - 3 <= length
  {
    hide Valid, IsText;
    length := if |data| < cap then |data| else cap;
    ghost var start := length;
    var ok := Validate(data[..length], false);
    assert data[..0] == [] && Valid([], false) by {
      NothingValid();
    }
    while length != 0 && !ok
      invariant length <= start
      invariant ok <==> Valid(data[..length], false)
      invariant forall k :: length < k <= start ==> !Valid(data[..k], false)
    {
      length := length - 1;
      ok := Validate(data[..length], false);
    }
    forall k | 0 <= k <= start
      ensures Valid(data[..k], false) <==> IsText(data[..k], false)
    {
      ValidIsText(data[..k], false);
    }
    if IsText(data, false) {
      ValidIsText(data, false);
      var k := CutLosesAtMostThree(data, start, false);
      assert data[..|data|] == data;
    }
  }
}

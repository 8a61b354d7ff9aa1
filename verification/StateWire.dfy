/**
 * The state-event codec: window records and events as they cross the wire.
 *
 * Every well-formed event survives it, nothing else decodes, and no two events
 * share an encoding. Copying a record goes through the codec, so it inherits
 * its limit.
 */
module StateWire {
  import opened Bytes
  import opened WireBuffer
  import Utf8

  const SNAPSHOT_BEGIN: u32 := 1
  const SNAPSHOT_ITEM: u32 := 2
  const SNAPSHOT_END: u32 := 3
  const CREATE: u32 := 4
  const DESTROY: u32 := 5
  const SHOW: u32 := 6
  const HIDE: u32 := 7
  const GEOMETRY: u32 := 8
  const TITLE: u32 := 9
  const ACTIVE: u32 := 10
  const CHANGED: u32 := 11
  const RESET: u32 := 13
  const WINDOWS: u32 := 1

  /**
   * A window record. The fourteen rectangle words are frame, client and surface
   * (x, y, width, height each) and buffer (width, height), as the codec walks them.
   */
  datatype Window = Window(
    flags: u32, validFields: u64, handle: u64, parent: u64, pid: u32, transparency: u32,
    rects: seq<u32>, stackingOrder: u64,
    title: seq<byte>, appId: seq<byte>, captureId: seq<byte>, compositorId: seq<byte>)

  datatype Event = Event(
    kind: u32, domain: u32, epoch: u64, sequence: u64, grantedScopes: u32, revokedScopes: u32,
    window: Window, data: seq<byte>)

  const NO_WINDOW := Window(0, 0, 0, 0, 0, 0, [0, 0, 0, 0, 0, 0, 0, 0, 0, 0, 0, 0, 0, 0], 0, [], [], [], [])

  predicate GoodText(t: seq<byte>) {
    |t| <= MAX_TEXT_BYTES && Utf8.Valid(t, false)
  }

  predicate GoodWindow(w: Window) {
    |w.rects| == 14 && GoodText(w.title) && GoodText(w.appId) && GoodText(w.captureId) && GoodText(w.compositorId)
  }

  /** One of the five domain bits. */
  predicate GoodDomain(d: u32) {
    d == 1 || d == 2 || d == 4 || d == 8 || d == 16
  }

  predicate GoodEvent(e: Event) {
    SNAPSHOT_BEGIN <= e.kind <= RESET && GoodDomain(e.domain) && GoodWindow(e.window) && GoodText(e.data)
  }

  // ----- words ---------------------------------------------------------------

  function Low(v: u64): (r: u32) {
    v % 0x1_0000_0000
  }

  function High(v: u64): (r: u32) {
    v / 0x1_0000_0000
  }

  function Join(lo: u32, hi: u32): (r: u64)
    ensures Low(r) == lo && High(r) == hi
  {
    lo + 0x1_0000_0000 * hi
  }

  lemma JoinSplit(v: u64)
    ensures Join(Low(v), High(v)) == v
  {
  }

  function PutWords(ws: seq<u32>): (r: seq<byte>)
    ensures |r| == 4 * |ws|
  {
    if ws == [] then [] else PutWords(ws[..|ws| - 1]) + Le32(ws[|ws| - 1])
  }

  function GetWords(s: seq<byte>, n: nat): (r: seq<u32>)
    requires |s| == 4 * n
    ensures |r| == n
  {
    if n == 0 then [] else GetWords(s[..4 * n - 4], n - 1) + [FromLe32(s[4 * n - 4..])]
  }

  lemma {:induction false} WordsRoundTrip(ws: seq<u32>)
    ensures GetWords(PutWords(ws), |ws|) == ws
  {
    hide Le32, FromLe32;
    if ws != [] {
      var n := |ws|;
      var s := PutWords(ws);
      WordsRoundTrip(ws[..n - 1]);
      assert s[..4 * n - 4] == PutWords(ws[..n - 1]) && s[4 * n - 4..] == Le32(ws[n - 1]);
      Le32RoundTrip(ws[n - 1]);
    }
  }

  lemma {:induction false} WordsCanonical(s: seq<byte>, n: nat)
    requires |s| == 4 * n
    ensures PutWords(GetWords(s, n)) == s
  {
    if n != 0 {
      WordsCanonical(s[..4 * n - 4], n - 1);
      Le32Canonical(s[4 * n - 4..]);
      var ws := GetWords(s, n);
      assert ws[..n - 1] == GetWords(s[..4 * n - 4], n - 1);
      assert s == s[..4 * n - 4] + s[4 * n - 4..];
    }
  }

  // ----- texts ---------------------------------------------------------------

  function PutText(t: seq<byte>): (r: seq<byte>)
    requires |t| < 0x1_0000_0000
  {
    Le32(|t|) + t
  }

  datatype Texts = Texts(items: seq<seq<byte>>, rest: seq<byte>)

  /** decode_text: a length, that many bytes, and the bytes are NUL-free text. */
  function GetText(s: seq<byte>): (r: Option<(seq<byte>, seq<byte>)>)
    ensures r.Some? ==> GoodText(r.value.0) && PutText(r.value.0) + r.value.1 == s
  {
    if |s| < 4 then None
    else
      var n := FromLe32(s[..4]);
      if n > MAX_TEXT_BYTES || |s| - 4 < n || !Utf8.Valid(s[4..4 + n], false) then None
      else
        TextCanonical(s);
        Some((s[4..4 + n], s[4 + n..]))
  }

  lemma TextCanonical(s: seq<byte>)
    requires |s| >= 4 && FromLe32(s[..4]) <= |s| - 4
    ensures var n := FromLe32(s[..4]); PutText(s[4..4 + n]) + s[4 + n..] == s
  {
    Le32Canonical(s[..4]);
  }

  lemma TextRoundTrip(t: seq<byte>, rest: seq<byte>)
    requires GoodText(t)
    ensures GetText(PutText(t) + rest) == Some((t, rest))
  {
    var s := PutText(t) + rest;
    assert s[..4] == Le32(|t|);
    Le32RoundTrip(|t|);
    assert s[4..4 + |t|] == t && s[4 + |t|..] == rest;
  }

  predicate GoodTexts(ts: seq<seq<byte>>) {
    forall t | t in ts :: GoodText(t)
  }

  predicate ShortTexts(ts: seq<seq<byte>>) {
    forall t | t in ts :: |t| <= MAX_TEXT_BYTES
  }

  function PutTexts(ts: seq<seq<byte>>): (r: seq<byte>)
    requires ShortTexts(ts)
  {
    if ts == [] then [] else PutText(ts[0]) + PutTexts(ts[1..])
  }

  function GetTexts(s: seq<byte>, n: nat): (r: Option<Texts>)
    ensures r.Some? ==> |r.value.items| == n
    decreases n
  {
    if n == 0 then Some(Texts([], s))
    else
      var first := GetText(s);
      if first.None? then None
      else
        var more := GetTexts(first.value.1, n - 1);
        if more.None? then None else Some(Texts([first.value.0] + more.value.items, more.value.rest))
  }

  lemma GoodIsShort(ts: seq<seq<byte>>)
    requires GoodTexts(ts)
    ensures ShortTexts(ts)
  {
  }

  lemma TextsFront(t: seq<byte>, more: seq<byte>, n: nat, tail: Texts)
    requires GoodText(t) && n > 0 && GetTexts(more, n - 1) == Some(tail)
    ensures GetTexts(PutText(t) + more, n) == Some(Texts([t] + tail.items, tail.rest))
  {
    hide GetText, PutText;
    TextRoundTrip(t, more);
  }

  lemma PutTextsFront(ts: seq<seq<byte>>, rest: seq<byte>)
    requires ts != [] && ShortTexts(ts)
    ensures PutTexts(ts) + rest == PutText(ts[0]) + (PutTexts(ts[1..]) + rest)
  {
    hide PutText;
  }

  lemma {:induction false} TextsRoundTrip(ts: seq<seq<byte>>, rest: seq<byte>)
    requires GoodTexts(ts)
    ensures GetTexts(PutTexts(ts) + rest, |ts|) == Some(Texts(ts, rest))
    decreases |ts|
  {
    if ts == [] {
      assert PutTexts(ts) + rest == rest;
    } else {
      hide GetText, GoodText, PutText, GetTexts, PutTexts;
      var more := ts[1..];
      assert GoodTexts(more);
      GoodIsShort(ts);
      GoodIsShort(more);
      PutTextsFront(ts, rest);
      TextsRoundTrip(more, rest);
      TextsFront(ts[0], PutTexts(more) + rest, |ts|, Texts(more, rest));
      assert ts == [ts[0]] + more;
    }
  }

  lemma {:induction false} TextsCanonical(s: seq<byte>, n: nat)
    requires GetTexts(s, n).Some?
    ensures var r := GetTexts(s, n).value; GoodTexts(r.items) && PutTexts(r.items) + r.rest == s
    decreases n
  {
    if n == 0 {
      assert PutTexts([]) + s == s;
    } else {
      var first := GetText(s).value;
      TextsCanonical(first.1, n - 1);
      var more := GetTexts(first.1, n - 1).value;
      var items := [first.0] + more.items;
      assert items[1..] == more.items;
      assert PutTexts(items) + more.rest == PutText(first.0) + (PutTexts(more.items) + more.rest);
    }
  }

  // ----- events --------------------------------------------------------------

  const FIXED_WORDS: nat := 33

  function FixedWords(e: Event): (ws: seq<u32>)
    requires |e.window.rects| == 14
    ensures |ws| == FIXED_WORDS
  {
    var w := e.window;
    [e.kind, e.domain, Low(e.epoch), High(e.epoch), Low(e.sequence), High(e.sequence),
     e.grantedScopes, e.revokedScopes, w.flags, Low(w.validFields), High(w.validFields),
     Low(w.handle), High(w.handle), Low(w.parent), High(w.parent), w.pid, w.transparency]
      + w.rects + [Low(w.stackingOrder), High(w.stackingOrder)]
  }

  function TextFields(e: Event): (ts: seq<seq<byte>>)
    ensures |ts| == 5
  {
    [e.window.title, e.window.appId, e.window.captureId, e.window.compositorId, e.data]
  }

  function EventOf(ws: seq<u32>, ts: seq<seq<byte>>): (e: Event)
    requires |ws| == FIXED_WORDS && |ts| == 5
  {
    Event(ws[0], ws[1], Join(ws[2], ws[3]), Join(ws[4], ws[5]), ws[6], ws[7],
          Window(ws[8], Join(ws[9], ws[10]), Join(ws[11], ws[12]), Join(ws[13], ws[14]), ws[15], ws[16],
                 ws[17..31], Join(ws[31], ws[32]), ts[0], ts[1], ts[2], ts[3]),
          ts[4])
  }

  lemma FieldsRoundTrip(e: Event)
    requires |e.window.rects| == 14
    ensures EventOf(FixedWords(e), TextFields(e)) == e
  {
    var w := e.window;
    JoinSplit(e.epoch);
    JoinSplit(e.sequence);
    JoinSplit(w.validFields);
    JoinSplit(w.handle);
    JoinSplit(w.parent);
    JoinSplit(w.stackingOrder);
    assert FixedWords(e)[17..31] == w.rects;
  }

  lemma FieldsCanonical(ws: seq<u32>, ts: seq<seq<byte>>)
    requires |ws| == FIXED_WORDS && |ts| == 5
    ensures FixedWords(EventOf(ws, ts)) == ws && TextFields(EventOf(ws, ts)) == ts
  {
    var rects := ws[17..31];
    assert forall i :: 17 <= i < 31 ==> rects[i - 17] == ws[i];
  }

  predicate Encodable(e: Event) {
    |e.window.rects| == 14 && ShortTexts(TextFields(e))
  }

  function Encode(e: Event): (r: seq<byte>)
    requires Encodable(e)
  {
    PutWords(FixedWords(e)) + PutTexts(TextFields(e))
  }

  function Decode(s: seq<byte>): (r: Option<Event>) {
    if |s| < 4 * FIXED_WORDS then None
    else
      var ts := GetTexts(s[4 * FIXED_WORDS..], 5);
      if ts.None? || ts.value.rest != [] then None
      else
        var e := EventOf(GetWords(s[..4 * FIXED_WORDS], FIXED_WORDS), ts.value.items);
        if SNAPSHOT_BEGIN <= e.kind <= RESET && GoodDomain(e.domain) then Some(e) else None
  }

  lemma GoodFields(e: Event)
    requires GoodEvent(e)
    ensures GoodTexts(TextFields(e)) && Encodable(e)
  {
  }

  /** Every good event survives the wire. */
  lemma EventRoundTrip(e: Event)
    requires GoodEvent(e)
    ensures Encodable(e) && Decode(Encode(e)) == Some(e)
  {
    GoodFields(e);
    var s := Encode(e);
    var ws, ts := FixedWords(e), TextFields(e);
    assert s[..4 * FIXED_WORDS] == PutWords(ws);
    assert s[4 * FIXED_WORDS..] == PutTexts(ts) + [];
    WordsRoundTrip(ws);
    TextsRoundTrip(ts, []);
    FieldsRoundTrip(e);
  }

  /** Nothing else is accepted: what decodes is the one encoding of a good event. */
  lemma DecodeCanonical(s: seq<byte>)
    requires Decode(s).Some?
    ensures var e := Decode(s).value; GoodEvent(e) && Encodable(e) && Encode(e) == s
  {
    var n := 4 * FIXED_WORDS;
    var ws := GetWords(s[..n], FIXED_WORDS);
    var ts := GetTexts(s[n..], 5).value;
    TextsCanonical(s[n..], 5);
    WordsCanonical(s[..n], FIXED_WORDS);
    FieldsCanonical(ws, ts.items);
    var e := Decode(s).value;
    assert forall t :: t in TextFields(e) ==> GoodText(t);
    assert PutTexts(ts.items) + [] == PutTexts(ts.items);
    assert s == s[..n] + s[n..];
  }

  // ----- copying a record ----------------------------------------------------

  function TextBytes(w: Window): (n: nat) {
    |w.title| + |w.appId| + |w.captureId| + |w.compositorId|
  }

  /** The event a copied record rides in. */
  function Carrier(w: Window): (e: Event) {
    Event(CHANGED, WINDOWS, 0, 0, 0, 0, w, [])
  }

  lemma CarrierGood(w: Window)
    ensures GoodEvent(Carrier(w)) <==> GoodWindow(w)
    ensures GoodWindow(w) ==> Encodable(Carrier(w))
  {
    if GoodWindow(w) {
      GoodFields(Carrier(w));
    }
  }

  /** The window of an event after a trip through the codec, inside a buffer of MAX_TEXT_BYTES. */
  function CopyThrough(e: Event): (r: Option<Window>) {
    if !Encodable(e) || |Encode(e)| > MAX_TEXT_BYTES then None
    else
      var d := Decode(Encode(e));
      if d.None? then None else Some(d.value.window)
  }

  /** ksd_state_window_copy. */
  function WindowCopy(w: Window): (r: Option<Window>) {
    CopyThrough(Carrier(w))
  }

  lemma EncodeLength(e: Event)
    requires Encodable(e)
    ensures |Encode(e)| == 4 * FIXED_WORDS + 20 + TextBytes(e.window) + |e.data|
  {
    var ts := TextFields(e);
    PutTextsLength(ts);
    assert ts[1..][1..][1..][1..] == [e.data];
    assert SumLengths([e.data]) == |e.data|;
    assert SumLengths(ts[1..][1..][1..]) == |e.window.compositorId| + |e.data|;
    assert SumLengths(ts[1..][1..]) == |e.window.captureId| + SumLengths(ts[1..][1..][1..]);
    assert SumLengths(ts[1..]) == |e.window.appId| + SumLengths(ts[1..][1..]);
  }

  function SumLengths(ts: seq<seq<byte>>): (n: nat) {
    if ts == [] then 0 else |ts[0]| + SumLengths(ts[1..])
  }

  lemma {:induction false} PutTextsLength(ts: seq<seq<byte>>)
    requires ShortTexts(ts)
    ensures |PutTexts(ts)| == 4 * |ts| + SumLengths(ts)
  {
    if ts != [] {
      PutTextsLength(ts[1..]);
    }
  }

  /** An encoding decodes to the event it came from, exactly when that event is good. */
  lemma DecodeEncode(e: Event)
    requires Encodable(e)
    ensures Decode(Encode(e)) == if GoodEvent(e) then Some(e) else None
  {
    if GoodEvent(e) {
      EventRoundTrip(e);
    } else if Decode(Encode(e)).Some? {
      DecodeCanonical(Encode(e));
      EncodeInjective(e, Decode(Encode(e)).value);
    }
  }

  lemma CopyThroughExact(e: Event)
    ensures CopyThrough(e)
         == if GoodEvent(e) && 4 * FIXED_WORDS + 20 + TextBytes(e.window) + |e.data| <= MAX_TEXT_BYTES
            then Some(e.window) else None
  {
    if Encodable(e) {
      EncodeLength(e);
      DecodeEncode(e);
    } else if GoodEvent(e) {
      GoodFields(e);
    }
  }

  /** The copy is the record itself, or is refused: exactly when it is not text or does not fit the buffer. */
  lemma WindowCopyExact(w: Window)
    ensures WindowCopy(w)
         == if GoodWindow(w) && 4 * FIXED_WORDS + 20 + TextBytes(w) <= MAX_TEXT_BYTES then Some(w) else None
  {
    CarrierGood(w);
    CopyThroughExact(Carrier(w));
  }

  lemma EncodeInjective(a: Event, b: Event)
    requires Encodable(a) && Encodable(b) && Encode(a) == Encode(b)
    ensures a == b
  {
    var n := 4 * FIXED_WORDS;
    assert Encode(a)[..n] == PutWords(FixedWords(a)) && Encode(b)[..n] == PutWords(FixedWords(b));
    WordsRoundTrip(FixedWords(a));
    WordsRoundTrip(FixedWords(b));
    assert Encode(a)[n..] == PutTexts(TextFields(a)) && Encode(b)[n..] == PutTexts(TextFields(b));
    PutTextsInjective(TextFields(a), TextFields(b));
    FieldsRoundTrip(a);
    FieldsRoundTrip(b);
  }

  lemma {:induction false} PutTextsInjective(a: seq<seq<byte>>, b: seq<seq<byte>>)
    requires ShortTexts(a) && ShortTexts(b) && |a| == |b| && PutTexts(a) == PutTexts(b)
    ensures a == b
    decreases |a|
  {
    if a != [] {
      var s := PutTexts(a);
      assert Le32(|a[0]|) == s[..4] == Le32(|b[0]|);
      Le32RoundTrip(|a[0]|);
      Le32RoundTrip(|b[0]|);
      var n := 4 + |a[0]|;
      assert a[0] == s[4..n] == b[0];
      assert PutTexts(a[1..]) == s[n..] == PutTexts(b[1..]);
      PutTextsInjective(a[1..], b[1..]);
    }
  }

  // ----- the encoder and decoder as the source runs them -----------------------

  lemma PutWordsStep(ws: seq<u32>, k: nat)
    requires k < |ws|
    ensures PutWords(ws[..k + 1]) == PutWords(ws[..k]) + Le32(ws[k])
  {
    assert ws[..k + 1][..k] == ws[..k];
  }

  lemma {:induction false} PutTextsAppend(ts: seq<seq<byte>>, t: seq<byte>)
    requires ShortTexts(ts) && |t| <= MAX_TEXT_BYTES
    ensures ShortTexts(ts + [t]) && PutTexts(ts + [t]) == PutTexts(ts) + PutText(t)
  {
    if ts == [] {
      assert PutTexts([]) == [] && ts + [t] == [t];
    } else {
      PutTextsAppend(ts[1..], t);
      assert (ts + [t])[1..] == ts[1..] + [t];
    }
  }

  lemma {:induction false} PutTextsPrefix(ts: seq<seq<byte>>, k: nat)
    requires ShortTexts(ts) && k <= |ts|
    ensures ShortTexts(ts[..k]) && |PutTexts(ts[..k])| <= |PutTexts(ts)|
    decreases |ts| - k
  {
    if k == |ts| {
      assert ts[..k] == ts;
    } else {
      PutTextsPrefix(ts, k + 1);
      assert ShortTexts(ts[..k]);
      PutTextsAppend(ts[..k], ts[k]);
      assert ts[..k + 1] == ts[..k] + [ts[k]];
    }
  }

  method WriteWords(buffer: Buffer, ws: seq<u32>) returns (ok: bool)
    requires buffer.Valid()
    modifies buffer
    ensures buffer.Valid()
    ensures ok <==> |old(buffer.data)| + 4 * |ws| <= buffer.maximum
    ensures ok ==> buffer.data == old(buffer.data) + PutWords(ws)
  {
    ghost var base := buffer.data;
    var i := 0;
    assert ws[..0] == [] && base + [] == base;
    while i < |ws|
      invariant 0 <= i <= |ws| && buffer.Valid()
      invariant buffer.data == base + PutWords(ws[..i])
    {
      PutWordsStep(ws, i);
      ok := buffer.Append(Le32(ws[i]));
      if !ok {
        return;
      }
      assert base + PutWords(ws[..i]) + Le32(ws[i]) == base + PutWords(ws[..i + 1]);
      i := i + 1;
    }
    assert ws[..i] == ws;
    ok := true;
  }

  method WriteTexts(buffer: Buffer, ts: seq<seq<byte>>) returns (ok: bool)
    requires buffer.Valid()
    modifies buffer
    ensures buffer.Valid()
    ensures ok <==> ShortTexts(ts) && |old(buffer.data)| + |PutTexts(ts)| <= buffer.maximum
    ensures ok ==> buffer.data == old(buffer.data) + PutTexts(ts)
  {
    ghost var base := buffer.data;
    var i := 0;
    assert ts[..0] == [] && PutTexts([]) == [] && base + [] == base;
    while i < |ts|
      invariant 0 <= i <= |ts| && buffer.Valid() && ShortTexts(ts[..i])
      invariant buffer.data == base + PutTexts(ts[..i])
    {
      var t := ts[i];
      if |t| > MAX_TEXT_BYTES {
        assert t in ts;
        return false;
      }
      PutTextsAppend(ts[..i], t);
      assert ts[..i + 1] == ts[..i] + [t];
      if ShortTexts(ts) {
        PutTextsPrefix(ts, i + 1);
      }
      ok := WriteText(buffer, t);
      if !ok {
        return;
      }
      assert base + PutTexts(ts[..i]) + PutText(t) == base + PutTexts(ts[..i + 1]);
      i := i + 1;
    }
    assert ts[..i] == ts;
    ok := true;
  }

  method WriteText(buffer: Buffer, t: seq<byte>) returns (ok: bool)
    requires buffer.Valid()
    modifies buffer
    ensures buffer.Valid()
    ensures ok <==> |t| <= MAX_TEXT_BYTES && |old(buffer.data)| + 4 + |t| <= buffer.maximum
    ensures ok ==> buffer.data == old(buffer.data) + PutText(t)
  {
    ghost var base := buffer.data;
    if |t| > MAX_TEXT_BYTES {
      return false;
    }
    ok := buffer.Append(Le32(|t|));
    if ok {
      ok := buffer.Append(t);
    }
    assert base + Le32(|t|) + t == base + PutText(t);
  }

  /** ksd_state_event_encode: refuses exactly what does not fit. */
  method WriteEvent(buffer: Buffer, e: Event) returns (ok: bool)
    requires buffer.Valid() && |e.window.rects| == 14
    modifies buffer
    ensures buffer.Valid()
    ensures ok <==> Encodable(e) && |old(buffer.data)| + |Encode(e)| <= buffer.maximum
    ensures ok ==> buffer.data == old(buffer.data) + Encode(e)
  {
    ghost var base := buffer.data;
    var ws, ts := FixedWords(e), TextFields(e);
    ok := WriteWords(buffer, ws);
    if ok {
      ok := WriteTexts(buffer, ts);
      if ShortTexts(ts) {
        assert base + PutWords(ws) + PutTexts(ts) == base + Encode(e);
      }
    }
  }

  /** The reader's answer for n more texts in s behind those it already has. */
  ghost function Behind(items: seq<seq<byte>>, s: seq<byte>, n: nat): (r: Option<Texts>) {
    var more := GetTexts(s, n);
    if more.None? then None else Some(Texts(items + more.value.items, more.value.rest))
  }

  lemma TextsSplit(items: seq<seq<byte>>, s: seq<byte>, n: nat)
    requires n > 0
    ensures GetText(s).None? ==> Behind(items, s, n) == None
    ensures GetText(s).Some? ==>
      Behind(items, s, n) == Behind(items + [GetText(s).value.0], GetText(s).value.1, n - 1)
  {
    var t := GetText(s);
    if t.Some? && GetTexts(t.value.1, n - 1).Some? {
      var u := GetTexts(t.value.1, n - 1).value.items;
      assert items + ([t.value.0] + u) == items + [t.value.0] + u;
    }
  }

  method ReadTexts(s: seq<byte>, n: nat) returns (r: Option<Texts>)
    ensures r == GetTexts(s, n)
  {
    hide GetText;
    var items: seq<seq<byte>> := [];
    var rest := s;
    var i := 0;
    ghost var whole := GetTexts(s, n);
    assert whole.Some? ==> [] + whole.value.items == whole.value.items;
    while i < n
      invariant 0 <= i <= n && whole == Behind(items, rest, n - i)
    {
      TextsSplit(items, rest, n - i);
      var t := GetText(rest);
      if t.None? {
        return None;
      }
      items := items + [t.value.0];
      rest := t.value.1;
      i := i + 1;
    }
    assert items + [] == items;
    r := Some(Texts(items, rest));
  }

  method ReadWords(s: seq<byte>, n: nat) returns (ws: seq<u32>)
    requires |s| == 4 * n
    ensures ws == GetWords(s, n)
  {
    ws := [];
    var i := 0;
    while i < n
      invariant 0 <= i <= n && ws == GetWords(s[..4 * i], i)
    {
      var t := s[..4 * i + 4];
      assert t[..4 * (i + 1) - 4] == s[..4 * i] && t[4 * (i + 1) - 4..] == s[4 * i..4 * i + 4];
      ws := ws + [FromLe32(s[4 * i..4 * i + 4])];
      i := i + 1;
      assert t == s[..4 * i];
    }
    assert s[..4 * n] == s;
  }

  /** ksd_state_event_decode. */
  method ReadEvent(s: seq<byte>) returns (r: Option<Event>)
    ensures r == Decode(s)
  {
    if |s| < 4 * FIXED_WORDS {
      return None;
    }
    var ws := ReadWords(s[..4 * FIXED_WORDS], FIXED_WORDS);
    var ts := ReadTexts(s[4 * FIXED_WORDS..], 5);
    if ts.None? || ts.value.rest != [] {
      return None;
    }
    var e := EventOf(ws, ts.value.items);
    r := if SNAPSHOT_BEGIN <= e.kind <= RESET && GoodDomain(e.domain) then Some(e) else None;
  }
}

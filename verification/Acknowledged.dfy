/** What each window operation waits for, in the numbers its request spells and the record its caller sees. */
module Acknowledged {
  import opened Bytes
  import opened StateWire
  import opened Lease
  import opened Mirror
  import opened Observed

  /** The lease, with no snapshot pending, takes the request as done. */
  predicate Done(list: seq<Window>, opcode: u16, payload: seq<byte>, before: Option<Window>) {
    ListObserved(list, false, Request(opcode, payload), before)
  }

  /** The client shows the window, and its record has the field. */
  ghost predicate Has(live: map<u64, Window>, h: u64, field: nat)
    requires field > 0
  {
    h in live && HasBit(live[h].validFields, field)
  }

  predicate On(w: Window, flag: nat)
    requires flag > 0
  {
    HasBit(w.flags, flag)
  }

  lemma Spelled(h: u64, rest: seq<byte>)
    ensures Target(Le64(h) + rest) == h
  {
    hide Le64, FromLe64;
    Le64RoundTrip(h);
    assert (Le64(h) + rest)[..8] == Le64(h);
  }

  lemma WordSpelled(front: seq<byte>, v: u32, rest: seq<byte>)
    ensures Word(front + Le32(v) + rest, |front|) == v
  {
    hide Le32, FromLe32;
    Le32RoundTrip(v);
    var p := front + Le32(v) + rest;
    assert p[|front|..|front| + 4] == Le32(v);
  }

  lemma ValueSpelled(h: u64, v: u32, rest: seq<byte>)
    ensures var p := Le64(h) + Le32(v) + rest; Target(p) == h && Word(p, 8) == v && p[12..] == rest
  {
    hide Le32, Le64;
    Spelled(h, Le32(v) + rest);
    assert Le64(h) + Le32(v) + rest == Le64(h) + (Le32(v) + rest);
    WordSpelled(Le64(h), v, rest);
  }

  lemma FoundLive(list: seq<Window>, live: map<u64, Window>, h: u64)
    requires Represents(list, live)
    ensures h in live <==> Find(list, h, 0) < |list|
    ensures h in live ==> list[Find(list, h, 0)] == live[h]
  {
  }

  /** Nothing is acknowledged while a snapshot is pending, and a request that names no window always is. */
  lemma PendingOrUnnamed(list: seq<Window>, pending: bool, r: Request, before: Option<Window>)
    ensures pending ==> !ListObserved(list, pending, r, before)
    ensures !pending && |r.payload| < 8 ==> ListObserved(list, pending, r, before)
  {
  }

  /** A window is closed when it is gone, and focused when its record says it is active; unlisted operations need it there. */
  lemma PlainDone(list: seq<Window>, live: map<u64, Window>, opcode: u16, h: u64, rest: seq<byte>, before: Option<Window>)
    requires Represents(list, live)
    ensures var done := Done(list, opcode, Le64(h) + rest, before);
      && (opcode == OP_CLOSE || opcode == OP_KILL ==> (done <==> h !in live))
      && (opcode == OP_FOCUS ==> (done <==> Has(live, h, FIELD_ACTIVE) && On(live[h], FLAG_ACTIVE)))
      && (opcode < OP_FOCUS || OP_SET_DECORATED < opcode < OP_SET_TITLE || OP_SET_VISIBLE < opcode ==> (done <==> h in live))
  {
    hide Represents, Find, Le64, Edge;
    Spelled(h, rest);
    FoundLive(list, live, h);
  }

  /** Raised: nothing the client shows stands above it, or it moved since; lowered, conversely. */
  lemma StackDone(list: seq<Window>, live: map<u64, Window>, opcode: u16, h: u64, rest: seq<byte>, before: Option<Window>)
    requires Represents(list, live) && (opcode == OP_RAISE || opcode == OP_LOWER)
    ensures Done(list, opcode, Le64(h) + rest, before) <==>
      && h in live
      && (|| (forall g :: g in live ==>
                if opcode == OP_RAISE then live[g].stackingOrder <= live[h].stackingOrder
                else live[h].stackingOrder <= live[g].stackingOrder)
          || (before.Some? && before.value.stackingOrder != live[h].stackingOrder))
  {
    hide Represents, Find, Le64, Edge;
    Spelled(h, rest);
    FoundLive(list, live, h);
    if h in live {
      EdgeIsAtEdge(list, live, live[h], opcode == OP_RAISE);
    }
  }

  /** Switches are at what was asked for: any value but zero means on. */
  lemma SwitchDone(list: seq<Window>, live: map<u64, Window>, opcode: u16, h: u64, value: u32, rest: seq<byte>, before: Option<Window>)
    requires Represents(list, live)
    ensures var done := Done(list, opcode, Le64(h) + Le32(value) + rest, before);
      && (opcode == OP_SET_VISIBLE ==> (done <==> Has(live, h, FIELD_VISIBLE) && (On(live[h], FLAG_VISIBLE) <==> value != 0)))
      && (opcode == OP_SET_ABOVE ==> (done <==> Has(live, h, FIELD_ABOVE) && (On(live[h], FLAG_ABOVE) <==> value != 0)))
      && (opcode == OP_SET_DECORATED ==>
            (done <==> Has(live, h, FIELD_DECORATED) && (On(live[h], FLAG_DECORATED) <==> value != 0)))
      && (opcode == OP_SET_OPACITY ==> (done <==> Has(live, h, FIELD_TRANSPARENCY) && live[h].transparency == value))
  {
    hide Represents, Find, Le64, Le32, Edge;
    ValueSpelled(h, value, rest);
    FoundLive(list, live, h);
  }

  /** Minimized, maximized, unminimized, and for any other value neither minimized nor maximized. */
  lemma StateDone(list: seq<Window>, live: map<u64, Window>, h: u64, value: u32, rest: seq<byte>, before: Option<Window>)
    requires Represents(list, live)
    ensures var done := Done(list, OP_SET_STATE, Le64(h) + Le32(value) + rest, before);
      && (value == 1 ==> (done <==> Has(live, h, FIELD_MINIMIZED) && On(live[h], FLAG_MINIMIZED)))
      && (value == 3 ==> (done <==> Has(live, h, FIELD_MINIMIZED) && !On(live[h], FLAG_MINIMIZED)))
      && (value == 2 ==> (done <==> Has(live, h, FIELD_MINIMIZED) && Has(live, h, FIELD_MAXIMIZED)
                                    && !On(live[h], FLAG_MINIMIZED) && On(live[h], FLAG_MAXIMIZED)))
      && (value == 0 || 3 < value ==> (done <==> Has(live, h, FIELD_MINIMIZED) && Has(live, h, FIELD_MAXIMIZED)
                                                 && !On(live[h], FLAG_MINIMIZED) && !On(live[h], FLAG_MAXIMIZED)))
  {
    hide Represents, Find, Le64, Le32, Edge;
    ValueSpelled(h, value, rest);
    FoundLive(list, live, h);
  }

  /** The title shown is the text of the request, of the length it declares. */
  lemma TitleDone(list: seq<Window>, live: map<u64, Window>, h: u64, length: u32, text: seq<byte>, before: Option<Window>)
    requires Represents(list, live)
    ensures Done(list, OP_SET_TITLE, Le64(h) + Le32(length) + text, before) <==>
      Has(live, h, FIELD_TITLE) && live[h].title == text && length == |text|
  {
    hide Represents, Find, Le64, Le32, Edge;
    ValueSpelled(h, length, text);
    FoundLive(list, live, h);
  }

  function Frame(before: Option<Window>, i: nat): (r: Option<u32>)
    requires i < 14
  {
    if before.Some? && HasBit(before.value.validFields, FIELD_FRAME) && |before.value.rects| == 14
    then Some(before.value.rects[i]) else None
  }

  /** Each of x, y, width and height was left alone, is what was asked for, or is no longer what it was. */
  lemma FrameDone(list: seq<Window>, live: map<u64, Window>, opcode: u16, h: u64,
                  x: u32, y: u32, width: u32, height: u32, rest: seq<byte>, before: Option<Window>)
    requires Represents(list, live) && (opcode == OP_MOVE_RESIZE || opcode == OP_MOVE_RESIZE_XID)
    requires h in live ==> |live[h].rects| == 14
    ensures Done(list, opcode, Le64(h) + Le32(x) + Le32(y) + Le32(width) + Le32(height) + rest, before) <==>
      && Has(live, h, FIELD_FRAME)
      && var now := live[h].rects;
         && (x == 0x8000_0000 || now[0] == x || Frame(before, 0) !in {None, Some(now[0])})
         && (y == 0x8000_0000 || now[1] == y || Frame(before, 1) !in {None, Some(now[1])})
         && (width == 0 || now[2] == width || Frame(before, 2) !in {None, Some(now[2])})
         && (height == 0 || now[3] == height || Frame(before, 3) !in {None, Some(now[3])})
  {
    hide Represents, Find, Le64, Le32, Edge, Target, Word;
    FrameSpelled(h, x, y, width, height, rest);
    FoundLive(list, live, h);
  }

  /** A component was asked to change, and is neither known to have been so already nor what it was. */
  predicate Shifted(prior: Option<u32>, asked: u32, keep: u32, now: u32) {
    prior !in {None, Some(asked), Some(now)} && asked != keep
  }

  /** Short of that, and past the deadline: something that was asked to change has changed. */
  lemma FrameProgresses(list: seq<Window>, live: map<u64, Window>, opcode: u16, h: u64,
                        x: u32, y: u32, width: u32, height: u32, rest: seq<byte>, before: Option<Window>)
    requires Represents(list, live) && (opcode == OP_MOVE_RESIZE || opcode == OP_MOVE_RESIZE_XID)
    requires h in live ==> |live[h].rects| == 14
    ensures
      var r := Request(opcode, Le64(h) + Le32(x) + Le32(y) + Le32(width) + Le32(height) + rest);
      GeometryChanged(list, false, r, before) <==>
        && Has(live, h, FIELD_FRAME)
        && var now := live[h].rects;
           || Shifted(Frame(before, 0), x, 0x8000_0000, now[0]) || Shifted(Frame(before, 1), y, 0x8000_0000, now[1])
           || Shifted(Frame(before, 2), width, 0, now[2]) || Shifted(Frame(before, 3), height, 0, now[3])
  {
    hide Represents, Find, Le64, Le32, Target, Word;
    FrameSpelled(h, x, y, width, height, rest);
    FoundLive(list, live, h);
  }

  lemma FrameSpelled(h: u64, x: u32, y: u32, width: u32, height: u32, rest: seq<byte>)
    ensures var p := Le64(h) + Le32(x) + Le32(y) + Le32(width) + Le32(height) + rest;
      Target(p) == h && Word(p, 8) == x && Word(p, 12) == y && Word(p, 16) == width && Word(p, 20) == height
  {
    hide Le64, Le32, FromLe32, Word;
    var p := Le64(h) + Le32(x) + Le32(y) + Le32(width) + Le32(height) + rest;
    Spelled(h, Le32(x) + Le32(y) + Le32(width) + Le32(height) + rest);
    assert p == Le64(h) + (Le32(x) + Le32(y) + Le32(width) + Le32(height) + rest);
    WordSpelled(Le64(h), x, Le32(y) + Le32(width) + Le32(height) + rest);
    assert p == Le64(h) + Le32(x) + (Le32(y) + Le32(width) + Le32(height) + rest);
    WordSpelled(Le64(h) + Le32(x), y, Le32(width) + Le32(height) + rest);
    assert p == Le64(h) + Le32(x) + Le32(y) + (Le32(width) + Le32(height) + rest);
    WordSpelled(Le64(h) + Le32(x) + Le32(y), width, Le32(height) + rest);
    assert p == Le64(h) + Le32(x) + Le32(y) + Le32(width) + (Le32(height) + rest);
    WordSpelled(Le64(h) + Le32(x) + Le32(y) + Le32(width), height, rest);
  }

  /** Requests too short to spell what they ask for are never done. */
  lemma ShortDone(list: seq<Window>, opcode: u16, payload: seq<byte>, before: Option<Window>)
    requires 8 <= |payload|
    requires || (|payload| < 12 && opcode in {OP_SET_STATE, OP_SET_OPACITY, OP_SET_ABOVE, OP_SET_DECORATED, OP_SET_TITLE, OP_SET_VISIBLE})
             || (|payload| < 24 && opcode in {OP_MOVE_RESIZE, OP_MOVE_RESIZE_XID})
    ensures !Done(list, opcode, payload, before)
  {
    hide Edge;
  }
}

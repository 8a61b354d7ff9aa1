/** When a window operation's effect is visible in the state a subscriber sees. */
module Observed {
  import opened Bytes
  import opened StateWire
  import opened Lease
  import opened Mirror

  const OP_FOCUS: u16 := 0x2020
  const OP_RAISE: u16 := 0x2021
  const OP_LOWER: u16 := 0x2022
  const OP_CLOSE: u16 := 0x2023
  const OP_KILL: u16 := 0x2024
  const OP_MOVE_RESIZE: u16 := 0x2025
  const OP_MOVE_RESIZE_XID: u16 := 0x2026
  const OP_SET_STATE: u16 := 0x2027
  const OP_SET_OPACITY: u16 := 0x2028
  const OP_SET_ABOVE: u16 := 0x2029
  const OP_SET_DECORATED: u16 := 0x202A
  const OP_SET_TITLE: u16 := 0x2070
  const OP_SET_VISIBLE: u16 := 0x2071

  const FIELD_TITLE: nat := 0x2
  const FIELD_FRAME: nat := 0x10
  const FIELD_VISIBLE: nat := 0x40
  const FIELD_ACTIVE: nat := 0x80
  const FIELD_MINIMIZED: nat := 0x100
  const FIELD_MAXIMIZED: nat := 0x200
  const FIELD_ABOVE: nat := 0x400
  const FIELD_DECORATED: nat := 0x800
  const FIELD_TRANSPARENCY: nat := 0x1000
  const FLAG_MINIMIZED: nat := 4
  const FLAG_MAXIMIZED: nat := 8
  const FLAG_ABOVE: nat := 16
  const FLAG_DECORATED: nat := 32

  const STATE_MINIMIZED: u32 := 1
  const STATE_MAXIMIZED: u32 := 2
  const STATE_UNMINIMIZED: u32 := 3
  /** INT32_MIN as the 32-bit word it is on the wire: leave this coordinate alone. */
  const KEEP_COORDINATE: u32 := 0x8000_0000

  datatype Request = Request(opcode: u16, payload: seq<byte>)

  function Word(p: seq<byte>, at: nat): (v: u32)
    requires at + 4 <= |p|
  {
    FromLe32(p[at..at + 4])
  }

  function Target(p: seq<byte>): (h: u64)
    requires |p| >= 8
  {
    FromLe64(p[..8])
  }

  /** One requested frame component: left alone, reached, or at least moved from where it was. */
  predicate Component(requested: u32, keep: u32, now: u32, prior: Option<u32>) {
    requested == keep || now == requested || (prior.Some? && now != prior.value)
  }

  predicate FrameObserved(w: Window, p: seq<byte>, before: Option<Window>) {
    && |p| >= 24 && HasBit(w.validFields, FIELD_FRAME) && |w.rects| == 14
    && var prior := (i: nat) requires i < 4 =>
         if before.Some? && HasBit(before.value.validFields, FIELD_FRAME) && |before.value.rects| == 14
         then Some(before.value.rects[i]) else None;
       && Component(Word(p, 8), KEEP_COORDINATE, w.rects[0], prior(0))
       && Component(Word(p, 12), KEEP_COORDINATE, w.rects[1], prior(1))
       && Component(Word(p, 16), 0, w.rects[2], prior(2))
       && Component(Word(p, 20), 0, w.rects[3], prior(3))
  }

  predicate Switched(w: Window, p: seq<byte>, field: nat, flag: nat)
    requires field > 0 && flag > 0
  {
    |p| >= 12 && HasBit(w.validFields, field) && (HasBit(w.flags, flag) <==> Word(p, 8) != 0)
  }

  predicate StateObserved(w: Window, p: seq<byte>) {
    && |p| >= 12
    && var state := Word(p, 8);
       && HasBit(w.validFields, FIELD_MINIMIZED)
       && (state != STATE_MINIMIZED && state != STATE_UNMINIMIZED ==> HasBit(w.validFields, FIELD_MAXIMIZED))
       && (if state == STATE_MINIMIZED then HasBit(w.flags, FLAG_MINIMIZED)
           else if state == STATE_MAXIMIZED then !HasBit(w.flags, FLAG_MINIMIZED) && HasBit(w.flags, FLAG_MAXIMIZED)
           else if state == STATE_UNMINIMIZED then !HasBit(w.flags, FLAG_MINIMIZED)
           else !HasBit(w.flags, FLAG_MINIMIZED) && !HasBit(w.flags, FLAG_MAXIMIZED))
  }

  predicate Restacked(w: Window, before: Option<Window>) {
    before.Some? && before.value.stackingOrder != w.stackingOrder
  }

  /** Everything about one window that does not need the others; atEdge says it is first or last in the stack. */
  predicate WindowObserved(w: Window, atEdge: bool, r: Request, before: Option<Window>) {
    var p := r.payload;
    if r.opcode == OP_RAISE || r.opcode == OP_LOWER then atEdge || Restacked(w, before)
    else if r.opcode == OP_FOCUS then HasBit(w.validFields, FIELD_ACTIVE) && HasBit(w.flags, FLAG_ACTIVE)
    else if r.opcode == OP_MOVE_RESIZE || r.opcode == OP_MOVE_RESIZE_XID then FrameObserved(w, p, before)
    else if r.opcode == OP_SET_TITLE then
      |p| >= 12 && HasBit(w.validFields, FIELD_TITLE) && Word(p, 8) == |w.title| && w.title == p[12..]
    else if r.opcode == OP_SET_VISIBLE then Switched(w, p, FIELD_VISIBLE, FLAG_VISIBLE)
    else if r.opcode == OP_SET_ABOVE then Switched(w, p, FIELD_ABOVE, FLAG_ABOVE)
    else if r.opcode == OP_SET_DECORATED then Switched(w, p, FIELD_DECORATED, FLAG_DECORATED)
    else if r.opcode == OP_SET_OPACITY then
      |p| >= 12 && HasBit(w.validFields, FIELD_TRANSPARENCY) && w.transparency == Word(p, 8)
    else if r.opcode == OP_SET_STATE then StateObserved(w, p)
    else true
  }

  /** One requested frame component has moved, though perhaps not to where it was asked to. */
  predicate Progressed(requested: u32, keep: u32, prior: u32, now: u32) {
    requested != keep && requested != prior && now != prior
  }

  /** operation_geometry_changed over the lease's own list. */
  predicate GeometryChanged(list: seq<Window>, pending: bool, r: Request, before: Option<Window>) {
    var p := r.payload;
    && !pending && before.Some? && |p| >= 24
    && HasBit(before.value.validFields, FIELD_FRAME) && |before.value.rects| == 14
    && (r.opcode == OP_MOVE_RESIZE || r.opcode == OP_MOVE_RESIZE_XID)
    && var k := Find(list, Target(p), 0);
       && k < |list| && HasBit(list[k].validFields, FIELD_FRAME) && |list[k].rects| == 14
       && var was, now := before.value.rects, list[k].rects;
          || Progressed(Word(p, 8), KEEP_COORDINATE, was[0], now[0])
          || Progressed(Word(p, 12), KEEP_COORDINATE, was[1], now[1])
          || Progressed(Word(p, 16), 0, was[2], now[2])
          || Progressed(Word(p, 20), 0, was[3], now[3])
  }

  /** First or last of a set of windows, by stacking order. */
  ghost predicate AtEdge(live: map<u64, Window>, w: Window, top: bool) {
    forall h :: h in live ==>
      if top then live[h].stackingOrder <= w.stackingOrder else w.stackingOrder <= live[h].stackingOrder
  }

  /** The effect is visible in a client's live windows. */
  ghost predicate Visible(live: map<u64, Window>, r: Request, before: Option<Window>) {
    |r.payload| < 8 ||
    var h := Target(r.payload);
    if r.opcode == OP_CLOSE || r.opcode == OP_KILL then h !in live
    else h in live && WindowObserved(live[h], AtEdge(live, live[h], r.opcode == OP_RAISE), r, before)
  }

  /** The source's scan for the highest or lowest stacking order, starting from the target's own. */
  function Edge(list: seq<Window>, i: nat, top: bool, edge: u64): (r: u64)
    requires i <= |list|
    ensures if top then edge <= r else r <= edge
    ensures forall j :: i <= j < |list| ==>
      if top then list[j].stackingOrder <= r else r <= list[j].stackingOrder
    ensures r == edge || exists j :: i <= j < |list| && list[j].stackingOrder == r
    decreases |list| - i
  {
    if i == |list| then edge
    else
      var o := list[i].stackingOrder;
      Edge(list, i + 1, top, if (top && o > edge) || (!top && o < edge) then o else edge)
  }

  /** operation_observed over the lease's own list. */
  function ListObserved(list: seq<Window>, pending: bool, r: Request, before: Option<Window>): (ok: bool) {
    if pending then false
    else if |r.payload| < 8 then true
    else
      var k := Find(list, Target(r.payload), 0);
      if r.opcode == OP_CLOSE || r.opcode == OP_KILL then k == |list|
      else if k == |list| then false
      else
        var w := list[k];
        WindowObserved(w, Edge(list, 0, r.opcode == OP_RAISE, w.stackingOrder) == w.stackingOrder, r, before)
  }

  lemma EdgeIsAtEdge(list: seq<Window>, live: map<u64, Window>, w: Window, top: bool)
    requires Represents(list, live)
    ensures Edge(list, 0, top, w.stackingOrder) == w.stackingOrder <==> AtEdge(live, w, top)
  {
    var e := Edge(list, 0, top, w.stackingOrder);
    if e == w.stackingOrder {
      forall h | h in live
        ensures if top then live[h].stackingOrder <= w.stackingOrder else w.stackingOrder <= live[h].stackingOrder
      {
        var j :| 0 <= j < |list| && list[j] == live[h];
      }
    } else {
      var j :| 0 <= j < |list| && list[j].stackingOrder == e;
      assert live[list[j].handle] == list[j];
    }
  }

  /** What the lease decides from its list is what is visible in the client's map. */
  lemma ListObservedIsVisible(list: seq<Window>, live: map<u64, Window>, pending: bool,
                              r: Request, before: Option<Window>)
    requires Represents(list, live)
    ensures ListObserved(list, pending, r, before) <==> !pending && Visible(live, r, before)
  {
    hide WindowObserved, Edge, AtEdge;
    if |r.payload| >= 8 {
      var h := Target(r.payload);
      var k := Find(list, h, 0);
      if k < |list| {
        assert live[h] == list[k];
        EdgeIsAtEdge(list, live, list[k], r.opcode == OP_RAISE);
      }
    }
  }

  /** operation_observed, with the loop that finds the edge of the stack. */
  method OperationObserved(list: seq<Window>, pending: bool, r: Request, before: Option<Window>) returns (ok: bool)
    ensures ok == ListObserved(list, pending, r, before)
    ensures forall live :: Represents(list, live) ==> (ok <==> !pending && Visible(live, r, before))
  {
    hide WindowObserved;
    forall live | Represents(list, live)
      ensures ListObserved(list, pending, r, before) <==> !pending && Visible(live, r, before)
    {
      ListObservedIsVisible(list, live, pending, r, before);
    }
    if pending {
      return false;
    }
    if |r.payload| < 8 {
      return true;
    }
    var k := 0;
    while k < |list| && list[k].handle != Target(r.payload)
      invariant 0 <= k <= |list| && Find(list, Target(r.payload), 0) == Find(list, Target(r.payload), k)
    {
      k := k + 1;
    }
    if r.opcode == OP_CLOSE || r.opcode == OP_KILL {
      return k == |list|;
    }
    if k == |list| {
      return false;
    }
    var w := list[k];
    var edge := w.stackingOrder;
    var i := 0;
    while i < |list|
      invariant 0 <= i <= |list|
      invariant Edge(list, 0, r.opcode == OP_RAISE, w.stackingOrder) == Edge(list, i, r.opcode == OP_RAISE, edge)
    {
      var o := list[i].stackingOrder;
      if r.opcode == OP_RAISE && o > edge {
        edge := o;
      }
      if r.opcode != OP_RAISE && o < edge {
        edge := o;
      }
      i := i + 1;
    }
    ok := WindowObserved(w, w.stackingOrder == edge, r, before);
  }

  // ----- after a record was lost from the live list -----------------------------

  const OP_SET_SKIP_TASKBAR: u16 := 0x202D

  /** Every window the client shows has the same stacking order. */
  ghost predicate Level(live: map<u64, Window>) {
    forall h, g :: h in live && g in live ==> live[h].stackingOrder == live[g].stackingOrder
  }

  /**
   * The loss of a record cannot be noticed: a window the client never saw, while
   * it shows one under handle zero; or the window under handle zero itself, when
   * its place in the stack tells nothing.
   */
  ghost predicate Hidden(live: map<u64, Window>, h: u64) {
    0 in live && if h != 0 then h !in live else live[0].stackingOrder == 0 || Level(live)
  }

  /** Whatever is acknowledged is visible. */
  ghost predicate Honest(list: seq<Window>, live: map<u64, Window>) {
    forall r, before :: ListObserved(list, false, r, before) ==> Visible(live, r, before)
  }

  function RequestFor(opcode: u16, h: u64): (r: Request)
    ensures |r.payload| == 8 && Target(r.payload) == h
  {
    Le64RoundTrip(h);
    assert Le64(h)[..8] == Le64(h);
    Request(opcode, Le64(h))
  }

  lemma ClearedFind(list: seq<Window>, h: u64, g: u64)
    requires forall i, j :: 0 <= i < j < |list| ==> list[i].handle != list[j].handle
    ensures var k, l := Find(list, h, 0), Cleared(list, h);
      && l[k] == NO_WINDOW && |l| >= |list|
      && (forall i :: 0 <= i < |list| && i != k ==> l[i] == list[i])
      && (g != 0 && g != h ==> Find(l, g, 0) == if Find(list, g, 0) == |list| then |l| else Find(list, g, 0))
      && (g == h != 0 ==> Find(l, g, 0) == |l|)
      && (g == 0 ==> Find(l, g, 0) < |l|)
  {
    var k, l := Find(list, h, 0), Cleared(list, h);
    assert forall i :: 0 <= i < |list| && i != k ==> l[i] == list[i];
    assert l[k] == NO_WINDOW;
  }

  /** A request that is acknowledged although its effect is not visible, for every loss that is not hidden. */
  lemma LossMisleads(list: seq<Window>, live: map<u64, Window>, h: u64) returns (r: Request, before: Option<Window>)
    requires Represents(list, live) && !Hidden(live, h)
    ensures ListObserved(Cleared(list, h), false, r, before) && !Visible(live, r, before)
  {
    hide Cleared, Edge, Le64, Target;
    var l := Cleared(list, h);
    if h != 0 && h in live {
      r, before := RequestFor(OP_CLOSE, h), None;
      ClearedFind(list, h, h);
    } else if 0 !in live {
      r, before := RequestFor(OP_SET_SKIP_TASKBAR, 0), None;
      ClearedFind(list, h, 0);
    } else {
      var w := live[0];
      before := Some(w);
      r := RequestFor(if AtEdge(live, w, true) then OP_LOWER else OP_RAISE, 0);
      NotBothEdges(live, w);
      ClearedFind(list, h, 0);
      ZeroCleared(list, live);
    }
  }

  lemma NotBothEdges(live: map<u64, Window>, w: Window)
    ensures AtEdge(live, w, true) && AtEdge(live, w, false) ==> Level(live)
  {
  }

  /** Clearing the slot of handle zero leaves the empty record there. */
  lemma ZeroCleared(list: seq<Window>, live: map<u64, Window>)
    requires Represents(list, live) && 0 in live
    ensures var l := Cleared(list, 0); var k := Find(list, 0, 0);
      k < |list| && list[k] == live[0] && l == list[k := NO_WINDOW] && Find(l, 0, 0) == k
  {
    hide Find;
    var k := Find(list, 0, 0);
    var i :| 0 <= i < |list| && list[i] == live[0];
    assert k <= i;
    var l := list[k := NO_WINDOW];
    assert l[k].handle == 0 && forall j :: 0 <= j < k ==> l[j] == list[j];
  }

  predicate OnEdge(list: seq<Window>, order: u64, top: bool) {
    forall j :: 0 <= j < |list| ==> if top then list[j].stackingOrder <= order else order <= list[j].stackingOrder
  }

  lemma EdgeMeans(list: seq<Window>, order: u64, top: bool)
    ensures Edge(list, 0, top, order) == order <==> OnEdge(list, order, top)
  {
  }

  /** Being at the edge only helps. */
  lemma EdgeHelps(w: Window, a: bool, b: bool, r: Request, before: Option<Window>)
    requires WindowObserved(w, a, r, before) && (a ==> b)
    ensures WindowObserved(w, b, r, before)
  {
    hide FrameObserved, StateObserved, Switched;
  }

  /** Nothing is observed of an empty record but its place in the stack, or nothing at all. */
  lemma EmptyObserved(w: Window, a: bool, b: bool, r: Request, before: Option<Window>)
    requires WindowObserved(NO_WINDOW, a, r, before)
    requires r.opcode == OP_RAISE || r.opcode == OP_LOWER ==>
      b || (w.stackingOrder == 0 && (a ==> b))
    ensures WindowObserved(w, b, r, before)
  {
  }

  /** A new slot at the end: what is acknowledged was visible without it. */
  lemma AppendedHonest(list: seq<Window>, live: map<u64, Window>, r: Request, before: Option<Window>)
    requires Represents(list, live) && 0 in live && ListObserved(list + [NO_WINDOW], false, r, before)
    ensures ListObserved(list, false, r, before)
  {
    hide WindowObserved, Edge, Find;
    if |r.payload| >= 8 {
      var l, g := list + [NO_WINDOW], Target(r.payload);
      var k := Find(l, g, 0);
      assert forall j :: 0 <= j < |list| ==> l[j] == list[j];
      assert l[|list|] == NO_WINDOW;
      var z :| 0 <= z < |list| && list[z] == live[0];
      assert Find(list, g, 0) == if k < |list| then k else |list|;
      if k < |list| && r.opcode != OP_CLOSE && r.opcode != OP_KILL {
        var w, top := list[k], r.opcode == OP_RAISE;
        EdgeMeans(l, w.stackingOrder, top);
        EdgeMeans(list, w.stackingOrder, top);
        assert OnEdge(l, w.stackingOrder, top) ==> OnEdge(list, w.stackingOrder, top) by {
          assert forall j :: 0 <= j < |list| ==> list[j] == l[j];
        }
        EdgeHelps(w, Edge(l, 0, top, w.stackingOrder) == w.stackingOrder,
                  Edge(list, 0, top, w.stackingOrder) == w.stackingOrder, r, before);
      }
    }
  }

  /** The slot of handle zero emptied, where its place in the stack told nothing. */
  lemma ZeroHonest(list: seq<Window>, live: map<u64, Window>, r: Request, before: Option<Window>)
    requires Represents(list, live) && Hidden(live, 0) && ListObserved(Cleared(list, 0), false, r, before)
    ensures ListObserved(list, false, r, before)
  {
    hide WindowObserved, Edge, Find, Cleared, Represents;
    ZeroCleared(list, live);
    var l, k := Cleared(list, 0), Find(list, 0, 0);
    if |r.payload| >= 8 {
      var g := Target(r.payload);
      var i := Find(l, g, 0);
      assert forall j :: 0 <= j < |list| && j != k ==> l[j] == list[j];
      assert Find(list, g, 0) == i;
      if i < |list| && r.opcode != OP_CLOSE && r.opcode != OP_KILL {
        var w, top := list[i], r.opcode == OP_RAISE;
        EdgeMeans(l, l[i].stackingOrder, top);
        EdgeMeans(list, w.stackingOrder, top);
        ZeroEdge(list, live, l, k, i, top);
        var a := Edge(l, 0, top, l[i].stackingOrder) == l[i].stackingOrder;
        var b := Edge(list, 0, top, w.stackingOrder) == w.stackingOrder;
        if i == k {
          EmptyObserved(w, a, b, r, before);
        } else {
          EdgeHelps(w, a, b, r, before);
        }
      }
    }
  }

  lemma ZeroEdge(list: seq<Window>, live: map<u64, Window>, l: seq<Window>, k: nat, i: nat, top: bool)
    requires Represents(list, live) && Hidden(live, 0) && k < |list| && list[k] == live[0] && l == list[k := NO_WINDOW]
    requires i < |list|
    ensures OnEdge(l, l[i].stackingOrder, top) ==> OnEdge(list, list[i].stackingOrder, top)
    ensures list[k].stackingOrder != 0 ==> OnEdge(list, list[i].stackingOrder, top)
  {
    assert forall j :: 0 <= j < |list| ==> list[j].handle in live && live[list[j].handle] == list[j];
    assert forall j :: 0 <= j < |list| && j != k ==> l[j] == list[j];
    if list[k].stackingOrder == 0 {
      assert forall j :: 0 <= j < |list| ==> list[j].stackingOrder == l[j].stackingOrder;
    } else {
      assert forall j :: 0 <= j < |list| ==> list[j].stackingOrder == list[i].stackingOrder;
    }
  }

  /** After a record was lost, the lease is still honest if and only if the loss is hidden. */
  lemma HonestExactly(list: seq<Window>, live: map<u64, Window>, h: u64)
    requires Represents(list, live)
    ensures Honest(Cleared(list, h), live) <==> Hidden(live, h)
  {
    hide ListObserved, Visible, Cleared, Level;
    if Hidden(live, h) {
      forall r, before | ListObserved(Cleared(list, h), false, r, before)
        ensures Visible(live, r, before)
      {
        if h == 0 {
          ZeroHonest(list, live, r, before);
        } else {
          NewSlot(list, live, h);
          AppendedHonest(list, live, r, before);
        }
        ListObservedIsVisible(list, live, false, r, before);
      }
    } else {
      var r, before := LossMisleads(list, live, h);
    }
  }

  lemma NewSlot(list: seq<Window>, live: map<u64, Window>, h: u64)
    requires Represents(list, live) && h !in live
    ensures Cleared(list, h) == list + [NO_WINDOW]
  {
  }
}

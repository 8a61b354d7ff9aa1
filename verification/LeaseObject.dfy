/**
 * The lease as the authority holds it: lists rewritten in place, events
 * written as bytes.
 *
 * Each method is proved equal to its step of the run model in Lease.
 */
module LeaseObject {
  import opened Bytes
  import opened WireBuffer
  import opened StateWire
  import opened Lease
  import opened Mirror
  import opened Observed
  import opened Fence

  /** ksd_state_window_copy: out through the encoder and back through the decoder. */
  method CopyWindow(w: Window) returns (r: Option<Window>)
    requires |w.rects| == 14
    ensures r == WindowCopy(w)
    ensures r.Some? ==> r.value == w
  {
    hide Encode, Decode;
    WindowCopyExact(w);
    var buffer := new Buffer(MAX_TEXT_BYTES);
    var ok := WriteEvent(buffer, Carrier(w));
    if !ok {
      return None;
    }
    assert buffer.data == [] + Encode(Carrier(w)) == Encode(Carrier(w));
    var copy := ReadEvent(buffer.data);
    r := if copy.None? then None else Some(copy.value.window);
  }

  /** The scan that finds a handle's slot. */
  method WindowSlot(list: seq<Window>, handle: u64) returns (k: nat)
    ensures k == Find(list, handle, 0)
  {
    k := 0;
    while k < |list| && list[k].handle != handle
      invariant 0 <= k <= |list| && Find(list, handle, 0) == Find(list, handle, k)
    {
      k := k + 1;
    }
  }

  /** The scan that puts a new window on top. */
  method ScanTop(list: seq<Window>, order: u64) returns (r: u64)
    ensures r == TopOrder(list, 0, order)
    ensures (forall i :: 0 <= i < |list| ==> list[i].stackingOrder < TWO64 - 1) ==>
      order <= r && forall i :: 0 <= i < |list| ==> list[i].stackingOrder < r
  {
    r := order;
    var i := 0;
    while i < |list|
      invariant 0 <= i <= |list| && TopOrder(list, 0, order) == TopOrder(list, i, r)
      invariant (forall j :: 0 <= j < |list| ==> list[j].stackingOrder < TWO64 - 1) ==>
        order <= r && forall j :: 0 <= j < i ==> list[j].stackingOrder < r
    {
      if list[i].stackingOrder >= r {
        r := (list[i].stackingOrder + 1) % TWO64;
      }
      i := i + 1;
    }
  }

  /** operation_geometry_changed. */
  method FrameProgress(list: seq<Window>, pending: bool, r: Request, before: Option<Window>) returns (ok: bool)
    ensures ok == GeometryChanged(list, pending, r, before)
  {
    var p := r.payload;
    if pending || before.None? || |p| < 24 || !HasBit(before.value.validFields, FIELD_FRAME) || |before.value.rects| != 14
       || (r.opcode != OP_MOVE_RESIZE && r.opcode != OP_MOVE_RESIZE_XID) {
      return false;
    }
    var k := WindowSlot(list, Target(p));
    if k == |list| || !HasBit(list[k].validFields, FIELD_FRAME) || |list[k].rects| != 14 {
      return false;
    }
    var was, now := before.value.rects, list[k].rects;
    var x, y, width, height := Word(p, 8), Word(p, 12), Word(p, 16), Word(p, 20);
    ok := (x != KEEP_COORDINATE && x != was[0] && now[0] != was[0])
       || (y != KEEP_COORDINATE && y != was[1] && now[1] != was[1])
       || (width != 0 && width != was[2] && now[2] != was[2])
       || (height != 0 && height != was[3] && now[3] != was[3]);
  }

  class AuthorityLease {
    var windows: seq<Window>
    var staged: seq<Window>
    var pending: bool
    var counter: nat
    var active: bool
    var subscribed: bool
    var monitor: bool
    var control: bool
    const epoch: u64
    /** The state-event payloads written to the client's socket. */
    var written: seq<seq<byte>>
    ghost var log: seq<Event>
    ghost var running: bool
    ghost var torn: bool

    ghost function Value(): (s: State)
      reads this
    {
      State(windows, staged, pending, counter, active, subscribed, monitor, control, epoch, log, running, torn)
    }

    ghost predicate Valid()
      reads this
    {
      GoodLog(log) && written == Wire(log)
    }

    constructor (epoch: u64)
      ensures Valid() && Value() == Start(epoch)
    {
      this.epoch := epoch;
      windows, staged, pending, counter, active := [], [], false, 0, true;
      subscribed, monitor, control := false, false, false;
      written := [];
      log, running, torn := [], true, false;
    }

    /** lease_emit: stamped, encoded, and either written whole or the end of the lease. */
    method Send(e: Event, delivered: bool) returns (ok: bool)
      requires Valid() && GoodEvent(e)
      modifies this`written, this`log, this`active, this`monitor, this`control
      ensures Valid()
      ensures Outcome(Value(), ok) == Emit(old(Value()), e, delivered)
    {
      hide Encode, GoodText;
      if !active {
        return false;
      }
      var stamped := e.(epoch := epoch, sequence := counter % TWO64);
      assert stamped == Stamp(Value(), e) && GoodEvent(stamped);
      var buffer := new Buffer(MAX_TEXT_BYTES + 256);
      ok := WriteEvent(buffer, stamped);
      ok := ok && delivered;
      if ok {
        assert buffer.data == [] + Encode(stamped) == Encode(stamped);
        WireAppend(log, stamped);
        written := written + [buffer.data];
        log := log + [stamped];
      } else {
        active, monitor, control := false, false, false;
      }
    }

    /** Fills a missing stacking order from the slot it will take, or from the top of the live stack. */
    method FillStacking(w: Window, list: seq<Window>, k: nat) returns (r: Window)
      requires k <= |list|
      ensures r == Filled(w, list, k, windows)
    {
      if HasBit(w.validFields, FIELD_STACKING) {
        return w;
      }
      var order := w.stackingOrder;
      if k < |list| {
        order := list[k].stackingOrder;
      } else {
        order := ScanTop(windows, order);
      }
      r := w.(validFields := WithStacking(w.validFields), stackingOrder := order);
    }

    method ApplyItem(e: Event, delivered: bool) returns (ok: bool)
      requires Valid() && GoodEvent(e) && e.kind == SNAPSHOT_ITEM
      modifies this
      ensures Valid()
      ensures Outcome(Value(), ok) == Apply(old(Value()), e, delivered)
    {
      hide WindowCopy, Filled, Emit, GoodText, GoodLog, Wire, Put, Find;
      if !pending {
        return false;
      }
      var k := WindowSlot(staged, e.window.handle);
      var w := FillStacking(e.window, staged, k);
      var copy := CopyWindow(w);
      if copy.None? {
        staged, torn := Put(staged, k, NO_WINDOW), true;
        return false;
      }
      staged := Put(staged, k, copy.value);
      ok := Send(e.(window := w), delivered);
    }

    method ApplyDelta(e: Event, delivered: bool) returns (ok: bool)
      requires Valid() && GoodEvent(e) && (e.kind == CREATE || SHOW <= e.kind)
      modifies this
      ensures Valid()
      ensures Outcome(Value(), ok) == Apply(old(Value()), e, delivered)
    {
      hide WindowCopy, Filled, Emit, GoodText, DeltaKind, GoodLog, Wire, Put, Find;
      var k := WindowSlot(windows, e.window.handle);
      var w := FillStacking(e.window, windows, k);
      if k < |windows| && windows[k] == w {
        return true;
      }
      var kind := if k == |windows| then CREATE else DeltaKind(windows[k], w);
      var copy := CopyWindow(w);
      if copy.None? {
        windows, torn := Put(windows, k, NO_WINDOW), true;
        return false;
      }
      windows := Put(windows, k, copy.value);
      counter := counter + 1;
      ok := Send(e.(window := w, kind := kind), delivered);
    }

    /** state_window_apply, behind the subscription and permission test of its caller. */
    method SourceEvent(e: Event, delivered: bool) returns (ok: bool)
      requires Valid() && Enabled(Value(), Source(e, delivered))
      modifies this
      ensures Valid()
      ensures Value() == Next(old(Value()), Source(e, delivered))
      ensures ok <==> running
    {
      hide Emit, GoodWindow, GoodText, ItemEffect, DeltaEffect, GoodLog, Wire, Find, Remove;
      if !subscribed || !monitor {
        return true;
      }
      ghost var before := Value();
      if e.kind == SNAPSHOT_BEGIN {
        counter, pending, staged := counter + 1, true, [];
        ok := Send(e, delivered);
      } else if e.kind == SNAPSHOT_END {
        if !pending {
          ok := false;
        } else {
          windows, staged, pending := staged, [], false;
          ok := Send(e, delivered);
        }
      } else if e.kind == SNAPSHOT_ITEM {
        ok := ApplyItem(e, delivered);
      } else if e.kind == DESTROY {
        var k := WindowSlot(windows, e.window.handle);
        if k == |windows| {
          ok := true;
        } else {
          windows, counter := Remove(windows, k), counter + 1;
          ok := Send(e, delivered);
        }
      } else {
        ok := ApplyDelta(e, delivered);
      }
      assert Outcome(Value(), ok) == Apply(before, e, delivered);
      running := ok;
    }

    method Subscribe(on: bool)
      requires Valid() && Enabled(Value(), Step.Subscribe(on))
      modifies this`subscribed, this`pending
      ensures Valid() && Value() == Next(old(Value()), Step.Subscribe(on))
    {
      subscribed, pending := on, on;
    }

    /** A source that ended: the client is told its window state may have moved on. */
    method SourceEnded(delivered: bool) returns (ok: bool)
      requires Valid() && Enabled(Value(), SourceLost(delivered))
      modifies this
      ensures Valid() && Value() == Next(old(Value()), SourceLost(delivered))
      ensures ok <==> running
    {
      hide Emit, GoodLog, Wire;
      if !subscribed {
        return true;
      }
      counter := counter + 1;
      ok := Send(RESET_EVENT, delivered);
      running := ok;
    }

    /**
     * The decision at the end of operation_sync's wait. Past the deadline some
     * requested geometry changed is success too, but no number.
     */
    method Sync(r: Request, before: Option<Window>, comparable: bool, expired: bool) returns (ok: bool, number: nat)
      requires Valid()
      ensures number == SyncFence(Value(), r, before, comparable)
      ensures ok <==>
        && active && control
        && (!subscribed || !comparable || ListObserved(windows, pending, r, before)
            || (expired && GeometryChanged(windows, pending, r, before)))
    {
      hide ListObserved, Visible, Represents, GeometryChanged;
      var monitoring := subscribed && comparable;
      var seen := OperationObserved(windows, pending, r, before);
      var observed := !monitoring || seen;
      var constrained := false;
      if !observed && expired {
        constrained := FrameProgress(windows, pending, r, before);
      }
      ok := active && control && (observed || constrained);
      number := if monitoring && ok && observed then counter % TWO64 else 0;
    }
  }

  lemma WireAppend(log: seq<Event>, e: Event)
    requires GoodLog(log) && GoodEvent(e) && Fits(e)
    ensures GoodLog(log + [e]) && Wire(log + [e]) == Wire(log) + [Encode(e)]
  {
    hide Encode, GoodEvent;
  }
}

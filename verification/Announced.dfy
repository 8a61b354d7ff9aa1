/** What a window event from a source stores, and what the client is told of it, in the client's own terms. */
module Announced {
  import opened Bytes
  import opened StateWire
  import opened Lease
  import opened Mirror
  import opened Observed
  import Fence

  /** Something that changes the live list: neither a marker, an item nor a removal. */
  predicate IsDelta(kind: u32) {
    kind == CREATE || SHOW <= kind
  }

  function Orders(list: seq<Window>): (r: set<u64>) {
    set w | w in list :: w.stackingOrder
  }

  function LiveOrders(live: map<u64, Window>): (r: set<u64>) {
    set h | h in live :: live[h].stackingOrder
  }

  function Shown(live: map<u64, Window>, h: u64): (w: Option<Window>) {
    if h in live then Some(live[h]) else None
  }

  /**
   * Raised no further than it takes, and above every other window exactly when
   * none stands at the highest order of all.
   */
  ghost predicate OnTop(orders: set<u64>, asked: u64, order: u64) {
    && ((forall o :: o in orders ==> o < order) <==> TWO64 - 1 !in orders)
    && (TWO64 - 1 !in orders ==> asked <= order)
    && (order == asked || exists o :: o in orders && order == (o + 1) % TWO64)
  }

  /** What becomes of a record on its way into a slot that held prior, among live windows of these orders. */
  ghost predicate Placed(w: Window, e: Window, prior: Option<Window>, orders: set<u64>) {
    if HasBit(e.validFields, FIELD_STACKING) then w == e
    else
      && w == e.(validFields := w.validFields, stackingOrder := w.stackingOrder)
      && w.validFields == e.validFields + FIELD_STACKING
      && if prior.Some? then w.stackingOrder == prior.value.stackingOrder else OnTop(orders, e.stackingOrder, w.stackingOrder)
  }

  lemma {:induction false} TopRaised(list: seq<Window>, i: nat, asked: u64, order: u64)
    requires i <= |list|
    requires (forall j :: 0 <= j < i ==> list[j].stackingOrder < order) <==> (forall j :: 0 <= j < i ==> list[j].stackingOrder < TWO64 - 1)
    requires (forall j :: 0 <= j < i ==> list[j].stackingOrder < TWO64 - 1) ==> asked <= order
    requires order == asked || exists j :: 0 <= j < i && order == (list[j].stackingOrder + 1) % TWO64
    ensures var r := TopOrder(list, i, order); var n := |list|;
      && ((forall j :: 0 <= j < n ==> list[j].stackingOrder < r) <==> (forall j :: 0 <= j < n ==> list[j].stackingOrder < TWO64 - 1))
      && ((forall j :: 0 <= j < n ==> list[j].stackingOrder < TWO64 - 1) ==> asked <= r)
      && (r == asked || exists j :: 0 <= j < n && r == (list[j].stackingOrder + 1) % TWO64)
    decreases |list| - i
  {
    if i < |list| {
      var o := list[i].stackingOrder;
      TopRaised(list, i + 1, asked, if o >= order then (o + 1) % TWO64 else order);
    }
  }

  lemma TopIsOnTop(list: seq<Window>, asked: u64)
    ensures OnTop(Orders(list), asked, TopOrder(list, 0, asked))
  {
    TopRaised(list, 0, asked, asked);
    var r, orders := TopOrder(list, 0, asked), Orders(list);
    assert forall j :: 0 <= j < |list| ==> list[j].stackingOrder in orders;
    if r != asked {
      var j :| 0 <= j < |list| && r == (list[j].stackingOrder + 1) % TWO64;
      assert list[j].stackingOrder in orders;
    }
  }

  lemma FilledPlaced(e: Window, list: seq<Window>, k: nat, live: seq<Window>)
    requires k <= |list|
    ensures Placed(Filled(e, list, k, live), e, if k < |list| then Some(list[k]) else None, Orders(live))
  {
    hide OnTop;
    TopIsOnTop(live, e.stackingOrder);
  }

  // ----- what is stored ---------------------------------------------------------------

  /** One slot of the list is the handle's first, or a new one at the end; there it holds w, elsewhere what it held. */
  ghost predicate StoredAt(list: seq<Window>, after: seq<Window>, k: nat, w: Window) {
    && k <= |list| && |after| == (if k == |list| then k + 1 else |list|) && after[k] == w
    && (k < |list| ==> list[k].handle == w.handle)
    && (forall j :: 0 <= j < k ==> list[j].handle != w.handle)
    && (forall j :: 0 <= j < |list| && j != k ==> after[j] == list[j])
  }

  ghost predicate Stores(list: seq<Window>, after: seq<Window>, e: Window, live: seq<Window>) {
    exists k: nat, w :: StoredAt(list, after, k, w) && Placed(w, e, if k < |list| then Some(list[k]) else None, Orders(live))
  }

  /** A change is stored in the live list as it came, but for a missing place in the stack. */
  lemma DeltaStored(s: State, e: Event, delivered: bool)
    requires Enabled(s, Source(e, delivered)) && s.subscribed && s.monitor && IsDelta(e.kind) && !Oversize(e.window)
    ensures Stores(s.windows, Next(s, Source(e, delivered)).windows, e.window, s.windows)
  {
    hide Placed, WindowCopy, Emit, DeltaKind, GoodText, Find;
    var k := Find(s.windows, e.window.handle, 0);
    var w := Filled(e.window, s.windows, k, s.windows);
    FilledPlaced(e.window, s.windows, k, s.windows);
    WindowCopyExact(w);
    match EffectOf(s, e) {
      case Send(t, f) => EmitLists(t, f, delivered);
      case _ =>
    }
    assert StoredAt(s.windows, Next(s, Source(e, delivered)).windows, k, w);
  }

  /** So is an item of a pending snapshot, in the staged list. */
  lemma ItemStored(s: State, e: Event, delivered: bool)
    requires Enabled(s, Source(e, delivered)) && s.subscribed && s.monitor && e.kind == SNAPSHOT_ITEM && !Oversize(e.window)
    requires s.pending
    ensures Stores(s.staged, Next(s, Source(e, delivered)).staged, e.window, s.windows)
  {
    hide Placed, WindowCopy, Emit, GoodText, Find;
    var k := Find(s.staged, e.window.handle, 0);
    var w := Filled(e.window, s.staged, k, s.windows);
    FilledPlaced(e.window, s.staged, k, s.windows);
    WindowCopyExact(w);
    match EffectOf(s, e) {
      case Send(t, f) => EmitLists(t, f, delivered);
      case _ =>
    }
    assert StoredAt(s.staged, Next(s, Source(e, delivered)).staged, k, w);
  }

  // ----- what the client is told -------------------------------------------------------

  predicate SameFrame(a: Window, b: Window) {
    forall i :: 0 <= i < 12 && i < |a.rects| && i < |b.rects| ==> a.rects[i] == b.rects[i]
  }

  /** The kind of a change says how the record differs from what the client shows, the first of these that it does. */
  ghost predicate TrueKind(kind: u32, prior: Option<Window>, w: Window) {
    && prior != Some(w)
    && (kind == CREATE <==> prior.None?)
    && (prior.Some? ==>
          var p := prior.value;
          var seen, sees := HasBit(p.flags, FLAG_VISIBLE), HasBit(w.flags, FLAG_VISIBLE);
          var was, is_ := HasBit(p.flags, FLAG_ACTIVE), HasBit(w.flags, FLAG_ACTIVE);
          && (kind == SHOW <==> !seen && sees)
          && (kind == HIDE <==> seen && !sees)
          && (kind == ACTIVE <==> seen == sees && was != is_)
          && (kind == GEOMETRY <==> seen == sees && was == is_ && !SameFrame(p, w))
          && (kind == TITLE <==> seen == sees && was == is_ && SameFrame(p, w) && p.title != w.title)
          && (kind == CHANGED <==> seen == sees && was == is_ && SameFrame(p, w) && p.title == w.title))
  }

  /** What a written event says is true of the windows its reader shows. */
  ghost predicate Truthful(v: View, f: Event) {
    && (f.kind == DESTROY ==> f.window.handle in v.live)
    && (f.kind != DESTROY && IsDelta(f.kind) && f.kind != RESET ==>
          TrueKind(f.kind, Shown(v.live, f.window.handle), f.window))
  }

  /** What is written for an event from a source. */
  ghost predicate Relays(v: View, e: Event, f: Event) {
    && Truthful(v, f)
    && (IsDelta(e.kind) <==> IsDelta(f.kind)) && (!IsDelta(e.kind) ==> f.kind == e.kind) && f.kind != RESET
    && (IsDelta(e.kind) ==> Placed(f.window, e.window, Shown(v.live, e.window.handle), LiveOrders(v.live)))
    && (e.kind == SNAPSHOT_ITEM ==> Placed(f.window, e.window, Shown(v.staged, e.window.handle), LiveOrders(v.live)))
    && (e.kind == DESTROY ==> f.window == e.window)
  }

  /** Under whose epoch and which number it is written; the rest of it, but for kind and record, is the source's. */
  predicate Stamped(s: State, counter: nat, e: Event, f: Event) {
    f == e.(kind := f.kind, window := f.window, epoch := s.epoch, sequence := counter % TWO64)
  }

  /** Nothing is written of what the client already shows, or never did. */
  ghost predicate Known(v: View, e: Event) {
    if e.kind == DESTROY then e.window.handle !in v.live
    else IsDelta(e.kind) && e.window.handle in v.live
         && Placed(v.live[e.window.handle], e.window, Some(v.live[e.window.handle]), LiveOrders(v.live))
  }

  lemma FoundShown(list: seq<Window>, m: map<u64, Window>, h: u64)
    requires Represents(list, m)
    ensures var k := Find(list, h, 0); Shown(m, h) == if k < |list| then Some(list[k]) else None
  {
  }

  lemma SameOrders(list: seq<Window>, m: map<u64, Window>)
    requires Represents(list, m)
    ensures Orders(list) == LiveOrders(m)
  {
    forall o | o in Orders(list)
      ensures o in LiveOrders(m)
    {
      var w :| w in list && w.stackingOrder == o;
      assert w.handle in m && m[w.handle] == w;
    }
    forall o | o in LiveOrders(m)
      ensures o in Orders(list)
    {
      var h :| h in m && m[h].stackingOrder == o;
      assert m[h] in list;
    }
  }

  lemma KindIsTrue(p: Window, w: Window)
    requires |p.rects| == 14 && |w.rects| == 14 && p != w
    ensures TrueKind(DeltaKind(p, w), Some(p), w)
  {
    assert p.rects[..12] == w.rects[..12] <==> SameFrame(p, w) by {
      if p.rects[..12] == w.rects[..12] {
        assert forall i :: 0 <= i < 12 ==> p.rects[i] == p.rects[..12][i] && w.rects[i] == w.rects[..12][i];
      }
    }
  }

  ghost predicate AllGood(list: seq<Window>) {
    forall w :: w in list ==> |w.rects| == 14
  }

  /** The client shows the lease's lists, and every record on the live one has a frame. */
  ghost predicate Agrees(s: State, v: View) {
    Represents(s.windows, v.live) && Represents(s.staged, v.staged) && AllGood(s.windows)
  }

  lemma DeltaRelayed(s: State, v: View, e: Event)
    requires Agrees(s, v) && GoodEvent(e) && IsDelta(e.kind)
    ensures DeltaEffect(s, e).Send? ==> Relays(v, e, DeltaEffect(s, e).event)
    ensures DeltaEffect(s, e) == Keep(true) <==> Known(v, e)
    ensures DeltaEffect(s, e).Keep? ==> DeltaEffect(s, e).ok
  {
    hide Placed, TrueKind, WindowCopy, DeltaKind, Find, Filled, Represents, Put;
    var k := Find(s.windows, e.window.handle, 0);
    var w := Filled(e.window, s.windows, k, s.windows);
    FoundShown(s.windows, v.live, e.window.handle);
    SameOrders(s.windows, v.live);
    FilledPlaced(e.window, s.windows, k, s.windows);
    if k < |s.windows| {
      if Placed(s.windows[k], e.window, Some(s.windows[k]), Orders(s.windows)) {
        PlacedOnce(s.windows[k], w, e.window, s.windows[k], Orders(s.windows));
      }
      if s.windows[k] != w {
        KindIsTrue(s.windows[k], w);
      }
    }
    if k == |s.windows| {
      CreateIsTrue(w);
    }
  }

  /** In a slot that held something a record has one place. */
  lemma PlacedOnce(a: Window, b: Window, e: Window, prior: Window, orders: set<u64>)
    requires Placed(a, e, Some(prior), orders) && Placed(b, e, Some(prior), orders)
    ensures a == b
  {
  }

  lemma KnownKinds(v: View, e: Event)
    requires Known(v, e)
    ensures e.kind == DESTROY || IsDelta(e.kind)
    ensures e.kind == DESTROY ==> e.window.handle !in v.live
  {
  }

  lemma CreateIsTrue(w: Window)
    ensures TrueKind(CREATE, None, w)
  {
  }

  lemma ItemRelayed(s: State, v: View, e: Event)
    requires Agrees(s, v) && GoodEvent(e) && e.kind == SNAPSHOT_ITEM
    ensures ItemEffect(s, e).Send? ==> Relays(v, e, ItemEffect(s, e).event)
    ensures ItemEffect(s, e).Keep? ==> !ItemEffect(s, e).ok
  {
    hide Placed, TrueKind, WindowCopy, Find, Filled, Represents, Put;
    var k := Find(s.staged, e.window.handle, 0);
    FoundShown(s.staged, v.staged, e.window.handle);
    SameOrders(s.windows, v.live);
    FilledPlaced(e.window, s.staged, k, s.windows);
  }

  lemma EffectRelayed(s: State, v: View, e: Event)
    requires Agrees(s, v) && GoodEvent(e)
    ensures EffectOf(s, e).Send? ==> Relays(v, e, EffectOf(s, e).event)
    ensures EffectOf(s, e) == Keep(true) <==> Known(v, e)
  {
    hide Placed, TrueKind, DeltaEffect, ItemEffect, Known, Represents, Find;
    if Known(v, e) {
      KnownKinds(v, e);
    }
    if e.kind == SNAPSHOT_ITEM {
      ItemRelayed(s, v, e);
    } else if IsDelta(e.kind) {
      DeltaRelayed(s, v, e);
    } else if e.kind == DESTROY {
      FoundShown(s.windows, v.live, e.window.handle);
      if e.window.handle !in v.live {
        DestroyKnown(v, e);
      }
    }
  }

  lemma DestroyKnown(v: View, e: Event)
    requires e.kind == DESTROY && e.window.handle !in v.live
    ensures Known(v, e)
  {
  }

  // ----- over whole runs ---------------------------------------------------------------

  /** A lease that still reads its sources has lost nothing, so its client shows what it holds. */
  ghost predicate Whole(s: State) {
    Mirrored(s) && (s.torn ==> !s.running)
  }

  lemma NextHalts(s: State, step: Step)
    requires Enabled(s, step) && (s.torn ==> !s.running)
    ensures Next(s, step).torn ==> !Next(s, step).running
  {
    hide EffectOf, Emit, GoodEvent;
    match step
    case Source(e, delivered) =>
      EffectFramed(s, e);
      match EffectOf(s, e) {
        case Send(t, f) => EmitKeepsTorn(t, f, delivered);
        case _ =>
      }
    case SourceLost(delivered) => EmitKeepsTorn(s.(counter := s.counter + 1), RESET_EVENT, delivered);
    case _ =>
  }

  lemma {:induction false} RunWhole(s: State, steps: seq<Step>)
    requires Whole(s) && Runnable(s, steps)
    ensures Whole(Run(s, steps))
    decreases |steps|
  {
    hide Mirrored, Next, Enabled;
    if steps != [] {
      NextMirrored(s, steps[0]);
      NextHalts(s, steps[0]);
      RunWhole(Next(s, steps[0]), steps[1..]);
    }
  }

  lemma {:induction false} ReplayGood(log: seq<Event>)
    requires GoodLog(log)
    ensures forall h :: h in Replay(log).live ==> |Replay(log).live[h].rects| == 14
    ensures forall h :: h in Replay(log).staged ==> |Replay(log).staged[h].rects| == 14
    decreases |log|
  {
    hide Encode, Fits, GoodText;
    if log != [] {
      var front := log[..|log| - 1];
      assert forall e :: e in front ==> e in log;
      assert log[|log| - 1] in log;
      ReplayGood(front);
    }
  }

  lemma WholeShares(s: State)
    requires Whole(s) && s.running && s.active
    ensures Agrees(s, Replay(s.log))
  {
    hide Replay, GoodLog;
    ReplayGood(s.log);
  }

  lemma RelaysStamped(v: View, e: Event, s: State, f: Event)
    requires Relays(v, e, f)
    ensures Relays(v, e, Stamp(s, f))
  {
    hide Placed, TrueKind;
  }

  /** What no effect touches, and what it makes of the event. */
  predicate Steady(s: State, e: Event, r: Effect) {
    match r
    case Keep(_) => true
    case Tear(t) => t.subscribed == s.subscribed && t.pending == s.pending
    case Send(t, f) =>
      && t.subscribed == s.subscribed && t.epoch == s.epoch && f == e.(kind := f.kind, window := f.window)
      && (s.pending && !t.pending ==> f.kind == SNAPSHOT_END)
  }

  lemma DeltaSteady(s: State, e: Event)
    ensures Steady(s, e, DeltaEffect(s, e)) && Steady(s, e, ItemEffect(s, e))
  {
    hide WindowCopy, Filled, Find, Put, DeltaKind;
  }

  lemma EffectSteady(s: State, e: Event)
    ensures Steady(s, e, EffectOf(s, e))
  {
    hide DeltaEffect, ItemEffect, Find, Remove;
    DeltaSteady(s, e);
  }

  lemma EmitWrites(s: State, e: Event, delivered: bool)
    ensures var o := Emit(s, e, delivered); o.state.log == (if o.ok then s.log + [Stamp(s, e)] else s.log)
    ensures Emit(s, e, delivered).state.counter == s.counter
  {
    hide Fits;
  }

  lemma SourceTold(s: State, e: Event, delivered: bool)
    requires Whole(s) && Enabled(s, Source(e, delivered)) && s.active && s.subscribed && s.monitor
    ensures var t, v := Next(s, Source(e, delivered)), Replay(s.log);
      if t.log == s.log then t.running <==> Known(v, e) else t.running && exists f :: t.log == s.log + [f] && Relays(v, e, f) && Stamped(s, t.counter, e, f)
  {
    hide EffectOf, Emit, Relays, Known, Replay, Mirrored, GoodEvent;
    var v := Replay(s.log);
    WholeShares(s);
    EffectRelayed(s, v, e);
    EffectFramed(s, e);
    match EffectOf(s, e) {
      case Send(u, f) =>
        EmitWrites(u, f, delivered);
        RelaysStamped(v, e, u, f);
        EffectSteady(s, e);
      case _ =>
    }
  }

  /**
   * From every reachable state: what is written for an event is true of the
   * windows the client shows, and carries the record as it came but for a
   * missing place in the stack, which is the one the client shows it at, or on
   * top. When nothing is written, the lease goes on exactly if the client shows
   * it already, or is told of the end of a window it does not show.
   */
  lemma SourceRelayed(epoch: u64, steps: seq<Step>, e: Event, delivered: bool)
    requires Runnable(Start(epoch), steps) && Enabled(Run(Start(epoch), steps), Source(e, delivered))
    requires var s := Run(Start(epoch), steps); s.active && s.subscribed && s.monitor
    ensures var s := Run(Start(epoch), steps); var t, v := Next(s, Source(e, delivered)), Replay(s.log);
      if t.log == s.log then t.running <==> Known(v, e) else t.running && exists f :: t.log == s.log + [f] && Relays(v, e, f) && Stamped(s, t.counter, e, f)
  {
    hide Mirrored, Next, Enabled, Relays, Known, Replay;
    StartMirrored(epoch);
    RunWhole(Start(epoch), steps);
    SourceTold(Run(Start(epoch), steps), e, delivered);
  }

  /** Room for the event in a frame, and for its record in a copy where one is kept. */
  predicate Roomy(e: Event) {
    && (IsDelta(e.kind) || e.kind == SNAPSHOT_ITEM ==> !Oversize(e.window))
    && 4 * FIXED_WORDS + 20 + TextBytes(e.window) + |e.data| <= MAX_TEXT_BYTES + 256
  }

  lemma DeltaSends(s: State, e: Event)
    requires GoodEvent(e) && IsDelta(e.kind)
    ensures DeltaEffect(s, e).Send? ==>
      var f := DeltaEffect(s, e).event; GoodEvent(f) && TextBytes(f.window) == TextBytes(e.window) && f.data == e.data
    ensures DeltaEffect(s, e).Keep? || (DeltaEffect(s, e).Send? <==> !Oversize(e.window))
  {
    hide WindowCopy, Filled, Find, Put, DeltaKind, GoodText;
    var k := Find(s.windows, e.window.handle, 0);
    WindowCopyExact(Filled(e.window, s.windows, k, s.windows));
  }

  lemma EffectSends(s: State, e: Event)
    requires GoodEvent(e)
    ensures EffectOf(s, e).Send? ==>
      var f := EffectOf(s, e).event; GoodEvent(f) && TextBytes(f.window) == TextBytes(e.window) && f.data == e.data
    ensures EffectOf(s, e) != Keep(true) ==>
      (EffectOf(s, e).Send? <==>
        (Shares(e.kind) ==> s.pending) && (IsDelta(e.kind) || e.kind == SNAPSHOT_ITEM ==> !Oversize(e.window)))
  {
    hide DeltaEffect, ItemEffect, Find, Remove, GoodWindow, GoodText, Oversize;
    if Shares(e.kind) {
      Fence.SharedEffect(s, e);
    } else if IsDelta(e.kind) {
      DeltaSends(s, e);
      DeltaKeeps(s, e);
    }
  }

  lemma DeltaKeeps(s: State, e: Event)
    ensures DeltaEffect(s, e).Keep? ==> DeltaEffect(s, e) == Keep(true)
  {
    hide WindowCopy, Filled, Find, Put, DeltaKind;
  }

  /**
   * From every reachable state that listens on an active lease: an event is
   * written exactly if it is delivered, the client does not show it already, an
   * item or end is of a pending snapshot, and there is room for it.
   */
  lemma SourceWritten(epoch: u64, steps: seq<Step>, e: Event, delivered: bool)
    requires Runnable(Start(epoch), steps) && Enabled(Run(Start(epoch), steps), Source(e, delivered))
    requires var s := Run(Start(epoch), steps); s.active && s.subscribed && s.monitor
    ensures var s := Run(Start(epoch), steps); var t, v := Next(s, Source(e, delivered)), Replay(s.log);
      t.log != s.log <==> delivered && !Known(v, e) && (Shares(e.kind) ==> s.pending) && Roomy(e)
  {
    hide Mirrored, Next, Enabled, Known, Replay, Run, Runnable, Roomy;
    StartMirrored(epoch);
    RunWhole(Start(epoch), steps);
    SourceWrites(Run(Start(epoch), steps), e, delivered);
  }

  lemma SourceWrites(s: State, e: Event, delivered: bool)
    requires Whole(s) && Enabled(s, Source(e, delivered)) && s.active && s.subscribed && s.monitor
    ensures var t, v := Next(s, Source(e, delivered)), Replay(s.log);
      t.log != s.log <==> delivered && !Known(v, e) && (Shares(e.kind) ==> s.pending) && Roomy(e)
  {
    hide EffectOf, Known, Replay, Mirrored, GoodEvent, Oversize, Fits;
    WholeShares(s);
    EffectRelayed(s, Replay(s.log), e);
    EffectFramed(s, e);
    EffectSends(s, e);
    match EffectOf(s, e) {
      case Send(u, f) => Fence.FitsExactly(Stamp(u, f)) by { StampGood(u, f); }
      case _ =>
    }
  }

  lemma StampGood(s: State, f: Event)
    requires GoodEvent(f)
    ensures GoodEvent(Stamp(s, f)) && Stamp(s, f).window == f.window && Stamp(s, f).data == f.data
  {
    hide GoodWindow, GoodText;
  }

  ghost predicate TruthfulLog(log: seq<Event>) {
    forall i :: 0 <= i < |log| ==> Truthful(Replay(log[..i]), log[i])
  }

  lemma TruthfulMore(log: seq<Event>, f: Event)
    requires TruthfulLog(log) && Truthful(Replay(log), f)
    ensures TruthfulLog(log + [f])
  {
    hide Truthful, Replay;
    var more := log + [f];
    forall i | 0 <= i < |more|
      ensures Truthful(Replay(more[..i]), more[i])
    {
      assert more[..i] == if i < |log| then log[..i] else log;
    }
  }

  lemma ResetTruthful(v: View, s: State)
    ensures Truthful(v, Stamp(s, RESET_EVENT))
  {
    hide TrueKind;
  }

  lemma RelaysTruthful(v: View, e: Event, f: Event)
    requires Relays(v, e, f)
    ensures Truthful(v, f)
  {
  }

  lemma NextTruthful(s: State, step: Step)
    requires Whole(s) && TruthfulLog(s.log) && Enabled(s, step)
    ensures TruthfulLog(Next(s, step).log)
  {
    hide EffectOf, Emit, Relays, Known, Replay, Mirrored, GoodEvent, Truthful;
    match step
    case Source(e, delivered) =>
      EffectFramed(s, e);
      if s.subscribed && s.monitor {
        if s.active {
          SourceTold(s, e, delivered);
          var t := Next(s, step);
          if t.log != s.log {
            var f :| t.log == s.log + [f] && Relays(Replay(s.log), e, f);
            RelaysTruthful(Replay(s.log), e, f);
            TruthfulMore(s.log, f);
          }
        } else {
          InactiveSilent(s, e, delivered);
        }
      }
    case SourceLost(delivered) =>
      var u := s.(counter := s.counter + 1);
      EmitWrites(u, RESET_EVENT, delivered);
      ResetTruthful(Replay(s.log), u);
      TruthfulMore(s.log, Stamp(u, RESET_EVENT));
    case _ =>
  }

  lemma InactiveSilent(s: State, e: Event, delivered: bool)
    requires !s.active
    ensures Apply(s, e, delivered).state.log == s.log
  {
    hide EffectOf;
    EffectFramed(s, e);
  }

  lemma {:induction false} StepsTruthful(s: State, steps: seq<Step>)
    requires Whole(s) && TruthfulLog(s.log) && Runnable(s, steps)
    ensures TruthfulLog(Run(s, steps).log)
    decreases |steps|
  {
    hide Mirrored, Next, Enabled, TruthfulLog;
    if steps != [] {
      NextMirrored(s, steps[0]);
      NextHalts(s, steps[0]);
      NextTruthful(s, steps[0]);
      StepsTruthful(Next(s, steps[0]), steps[1..]);
    }
  }

  /** Over every run, every event written is true of what its reader shows when it reads it. */
  lemma RunTruthful(epoch: u64, steps: seq<Step>)
    requires Runnable(Start(epoch), steps)
    ensures TruthfulLog(Run(Start(epoch), steps).log)
  {
    StartMirrored(epoch);
    StepsTruthful(Start(epoch), steps);
  }

  /** The end of a source is told, under the next number, to a client that has subscribed; or it is the end of the lease. */
  lemma LossTold(s: State, delivered: bool)
    requires Enabled(s, SourceLost(delivered)) && s.active
    ensures var t := Next(s, SourceLost(delivered));
      if !s.subscribed then t == s
      else if t.log == s.log then !t.active && !t.running
      else t.active && exists f ::
        t.log == s.log + [f] && f.kind == RESET && f.domain == WINDOWS && f.epoch == s.epoch && f.sequence == (s.counter + 1) % TWO64
  {
    hide Fits;
    var u := s.(counter := s.counter + 1);
    EmitWrites(u, RESET_EVENT, delivered);
  }

  // ----- subscriptions and permission ------------------------------------------------------

  /** Some event of the log from n on ends a snapshot. */
  ghost predicate EndedSince(log: seq<Event>, n: nat) {
    exists i :: n <= i < |log| && log[i].kind == SNAPSHOT_END
  }

  /** Whoever has subscribed and seen no snapshot end waits for it. */
  ghost predicate Waits(s: State, n: nat) {
    n <= |s.log| && (s.active && s.subscribed && !EndedSince(s.log, n) ==> s.pending)
  }

  lemma StepPending(s: State, step: Step)
    requires Enabled(s, step) && s.pending
    ensures var t := Next(s, step);
      t.active && t.subscribed && !t.pending ==> exists f :: t.log == s.log + [f] && f.kind == SNAPSHOT_END
  {
    hide EffectOf, Fits;
    if step.Source? && s.subscribed && s.monitor {
      EffectFramed(s, step.event);
      EffectSteady(s, step.event);
      match EffectOf(s, step.event) {
        case Send(u, f) => EmitPends(u, f, step.delivered);
        case _ =>
      }
    }
  }

  lemma EmitPends(s: State, e: Event, delivered: bool)
    ensures var o := Emit(s, e, delivered).state;
      o.pending == s.pending && o.subscribed == s.subscribed && (o.active ==> o.log == s.log + [Stamp(s, e)])
  {
    hide Fits;
  }

  lemma StepGrows(s: State, step: Step)
    requires Enabled(s, step)
    ensures s.log <= Next(s, step).log && (Next(s, step).active ==> s.active)
    ensures !step.Subscribe? && Next(s, step).subscribed ==> s.subscribed
  {
    hide EffectOf, Fits;
    match step
    case Source(e, delivered) =>
      EffectFramed(s, e);
      EffectSteady(s, e);
      match EffectOf(s, e) {
        case Send(u, f) => EmitWrites(u, f, delivered);
        case _ =>
      }
    case SourceLost(delivered) => EmitWrites(s.(counter := s.counter + 1), RESET_EVENT, delivered);
    case _ =>
  }

  lemma NextWaits(s: State, step: Step, n: nat)
    requires Waits(s, n) && Enabled(s, step)
    ensures Waits(Next(s, step), n)
  {
    hide Next, Enabled;
    StepGrows(s, step);
    var t := Next(s, step);
    if EndedSince(s.log, n) {
      var i :| n <= i < |s.log| && s.log[i].kind == SNAPSHOT_END;
      assert t.log[i] == s.log[i];
    } else if s.pending {
      StepPending(s, step);
      if t.active && t.subscribed && !t.pending {
        assert t.log[|s.log|].kind == SNAPSHOT_END;
      }
    } else if step.Subscribe? {
      SubscribePends(s, step);
    }
  }

  lemma SubscribePends(s: State, step: Step)
    requires step.Subscribe?
    ensures Next(s, step).subscribed ==> Next(s, step).pending
  {
  }

  lemma {:induction false} RunWaits(s: State, steps: seq<Step>, n: nat)
    requires Waits(s, n) && Runnable(s, steps)
    ensures Waits(Run(s, steps), n)
    decreases |steps|
  {
    hide Waits, Next, Enabled;
    if steps != [] {
      NextWaits(s, steps[0], n);
      RunWaits(Next(s, steps[0]), steps[1..], n);
    }
  }

  /**
   * From a subscription on, whatever happens, no operation is acknowledged to a
   * client that still subscribes before the end of a snapshot has been written
   * to it.
   */
  lemma SubscriptionWaits(s: State, steps: seq<Step>, r: Request, before: Option<Window>)
    requires Enabled(s, Subscribe(true)) && Runnable(Next(s, Subscribe(true)), steps)
    ensures var t := Run(Next(s, Subscribe(true)), steps);
      t.active && t.subscribed && ListObserved(t.windows, t.pending, r, before) ==> EndedSince(t.log, |s.log|)
  {
    hide ListObserved, EndedSince;
    RunWaits(Next(s, Subscribe(true)), steps, |s.log|);
    PendingRefuses(Run(Next(s, Subscribe(true)), steps), r, before);
  }

  lemma PendingRefuses(s: State, r: Request, before: Option<Window>)
    ensures s.pending ==> !ListObserved(s.windows, s.pending, r, before)
  {
  }

  lemma {:induction false} UnsubscribedSilent(s: State, steps: seq<Step>)
    requires !s.subscribed && Runnable(s, steps) && forall i :: 0 <= i < |steps| ==> !steps[i].Subscribe?
    ensures Run(s, steps).log == s.log && Run(s, steps).windows == s.windows
    decreases |steps|
  {
    if steps != [] {
      assert !steps[0].Subscribe?;
      UnsubscribedSilent(Next(s, steps[0]), steps[1..]);
    }
  }

  /** A lease that is told it may no longer watch windows writes none, whatever it is granted later, until it subscribes again. */
  lemma RevokedSilent(s: State, control: bool, steps: seq<Step>)
    requires s.monitor && Enabled(s, Grants(false, control, true))
    requires Runnable(Next(s, Grants(false, control, true)), steps) && forall i :: 0 <= i < |steps| ==> !steps[i].Subscribe?
    ensures var t := Run(Next(s, Grants(false, control, true)), steps); t.log == s.log && t.windows == s.windows
  {
    UnsubscribedSilent(Next(s, Grants(false, control, true)), steps);
  }

  // ----- the end of a lease --------------------------------------------------------------------

  /** An ended lease has no permission left. */
  predicate Denied(s: State) {
    !s.active ==> !s.monitor && !s.control
  }

  lemma EmitDenied(s: State, e: Event, delivered: bool)
    requires Denied(s)
    ensures Denied(Emit(s, e, delivered).state)
  {
    hide Fits;
  }

  predicate SamePermissions(s: State, t: State) {
    t.active == s.active && t.monitor == s.monitor && t.control == s.control
  }

  predicate Permits(s: State, r: Effect) {
    match r case Keep(_) => true case Tear(t) => SamePermissions(s, t) case Send(t, _) => SamePermissions(s, t)
  }

  lemma EffectPermits(s: State, e: Event)
    ensures Permits(s, EffectOf(s, e))
  {
    hide DeltaEffect, ItemEffect, Find, Remove;
    DeltaPermits(s, e);
  }

  lemma DeltaPermits(s: State, e: Event)
    ensures Permits(s, DeltaEffect(s, e)) && Permits(s, ItemEffect(s, e))
  {
    hide WindowCopy, Filled, Find, Put, DeltaKind;
  }

  lemma NextDenied(s: State, step: Step)
    requires Denied(s) && Enabled(s, step)
    ensures Denied(Next(s, step))
  {
    hide EffectOf, Emit, GoodEvent;
    match step
    case Source(e, delivered) =>
      EffectPermits(s, e);
      match EffectOf(s, e) {
        case Send(u, f) => EmitDenied(u, f, delivered);
        case _ =>
      }
    case SourceLost(delivered) => EmitDenied(s.(counter := s.counter + 1), RESET_EVENT, delivered);
    case _ =>
  }

  lemma {:induction false} StepsDenied(s: State, steps: seq<Step>)
    requires Denied(s) && Runnable(s, steps)
    ensures Denied(Run(s, steps))
    decreases |steps|
  {
    hide Next, Enabled, Denied;
    if steps != [] {
      NextDenied(s, steps[0]);
      StepsDenied(Next(s, steps[0]), steps[1..]);
    }
  }

  /** Over every run, a lease that has ended, on its own or because an event could not be written, has no permission left. */
  lemma RunDenied(epoch: u64, steps: seq<Step>)
    requires Runnable(Start(epoch), steps)
    ensures Denied(Run(Start(epoch), steps))
  {
    StepsDenied(Start(epoch), steps);
  }

  lemma {:induction false} EndedSilent(s: State, steps: seq<Step>)
    requires !s.active && !s.running && Runnable(s, steps)
    ensures var t := Run(s, steps); !t.active && !t.running && t.log == s.log
    decreases |steps|
  {
    hide Apply, Emit;
    if steps != [] {
      assert steps[0] == Close;
      EndedSilent(Next(s, steps[0]), steps[1..]);
    }
  }

  /** A lease that is closed stays closed, writes nothing more and acknowledges nothing. */
  lemma ClosedForGood(s: State, steps: seq<Step>, r: Request, before: Option<Window>, comparable: bool)
    requires Runnable(Next(s, Close), steps)
    ensures var t := Run(Next(s, Close), steps);
      !t.active && t.log == s.log && Fence.SyncFence(t, r, before, comparable) == 0
  {
    hide ListObserved;
    EndedSilent(Next(s, Close), steps);
  }
}

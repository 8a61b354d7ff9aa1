/** What a client that folds the emitted window events holds, against what the lease holds. */
module Mirror {
  import opened Bytes
  import opened StateWire
  import opened Lease

  datatype View = View(live: map<u64, Window>, staged: map<u64, Window>)

  /** The client's reading of one window event. */
  function Fold(v: View, e: Event): (r: View) {
    if e.kind == SNAPSHOT_BEGIN then v.(staged := map[])
    else if e.kind == SNAPSHOT_ITEM then v.(staged := v.staged[e.window.handle := e.window])
    else if e.kind == SNAPSHOT_END then View(v.staged, map[])
    else if e.kind == DESTROY then v.(live := v.live - {e.window.handle})
    else if e.kind == RESET then v
    else v.(live := v.live[e.window.handle := e.window])
  }

  function Replay(log: seq<Event>): (v: View) {
    if log == [] then View(map[], map[]) else Fold(Replay(log[..|log| - 1]), log[|log| - 1])
  }

  /** The list holds each handle once, and the map holds exactly the list's records. */
  ghost predicate Represents(list: seq<Window>, m: map<u64, Window>) {
    && (forall i :: 0 <= i < |list| ==> list[i].handle in m && m[list[i].handle] == list[i])
    && (forall h :: h in m ==> m[h] in list && m[h].handle == h)
    && (forall i, j :: 0 <= i < j < |list| ==> list[i].handle != list[j].handle)
  }

  lemma RepresentsPut(list: seq<Window>, m: map<u64, Window>, w: Window)
    requires Represents(list, m)
    ensures Represents(Put(list, Find(list, w.handle, 0), w), m[w.handle := w])
  {
    var k := Find(list, w.handle, 0);
    var l, n := Put(list, k, w), m[w.handle := w];
    assert l[k] == w;
    forall h | h in n
      ensures n[h] in l && n[h].handle == h
    {
      if h != w.handle {
        var i :| 0 <= i < |list| && list[i] == m[h];
        assert i != k && l[i] == list[i];
      }
    }
  }

  lemma RepresentsRemove(list: seq<Window>, m: map<u64, Window>, k: nat)
    requires Represents(list, m) && k < |list|
    ensures Represents(Remove(list, k), m - {list[k].handle})
  {
    var l, n := Remove(list, k), m - {list[k].handle};
    forall i | 0 <= i < |l|
      ensures l[i] == list[if i < k then i else i + 1] && l[i].handle in n && n[l[i].handle] == l[i]
    {
      assert l[i] == list[if i < k then i else i + 1];
    }
    forall h | h in n
      ensures n[h] in l && n[h].handle == h
    {
      var i :| 0 <= i < |list| && list[i] == m[h];
      assert i != k;
      assert l[if i < k then i else i - 1] == list[i];
    }
  }

  lemma RepresentsEmpty()
    ensures Represents([], map[])
  {
  }

  ghost predicate GoodLog(log: seq<Event>) {
    forall e :: e in log ==> GoodEvent(e) && Fits(e)
  }

  /** While the lease is active and no record was lost, the client's view is the lease's two lists. */
  ghost predicate Mirrored(s: State) {
    && GoodLog(s.log)
    && (s.active && !s.torn ==>
          Represents(s.windows, Replay(s.log).live) && Represents(s.staged, Replay(s.log).staged))
  }

  lemma ReplayAppend(log: seq<Event>, e: Event)
    ensures Replay(log + [e]) == Fold(Replay(log), e)
  {
    assert (log + [e])[..|log|] == log;
  }

  /** The stamp is not part of what a client folds. */
  lemma FoldStamp(v: View, s: State, e: Event)
    ensures Fold(v, Stamp(s, e)) == Fold(v, e)
  {
  }

  /** Emitting keeps the mirror when the lists already agree with the view the event will produce. */
  lemma EmitMirrored(s: State, e: Event, delivered: bool, v: View)
    requires GoodLog(s.log) && GoodEvent(e)
    requires s.active && !s.torn ==>
      v == Fold(Replay(s.log), e) && Represents(s.windows, v.live) && Represents(s.staged, v.staged)
    ensures Mirrored(Emit(s, e, delivered).state)
  {
    hide Fold, Represents, Fits, GoodWindow, GoodText;
    if s.active && Fits(Stamp(s, e)) && delivered {
      var f := Stamp(s, e);
      FoldStamp(Replay(s.log), s, e);
      ReplayAppend(s.log, f);
      assert GoodEvent(f);
      assert GoodLog(s.log + [f]);
    }
  }

  /** The state a Send leaves holds what the client will hold once it has folded the event. */
  ghost predicate Anticipates(s: State, r: Effect) {
    r.Send? ==>
      && GoodEvent(r.event)
      && (s.active && !s.torn ==>
            var v := Fold(Replay(s.log), r.event);
            Represents(r.state.windows, v.live) && Represents(r.state.staged, v.staged))
  }

  lemma ItemAnticipates(s: State, e: Event)
    requires Mirrored(s) && GoodEvent(e) && e.kind == SNAPSHOT_ITEM
    ensures Anticipates(s, ItemEffect(s, e))
  {
    hide Represents, WindowCopy, Filled, Find, Put, Replay, GoodLog, GoodWindow;
    if s.pending {
      var k := Find(s.staged, e.window.handle, 0);
      var w := Filled(e.window, s.staged, k, s.windows);
      WindowCopyExact(w);
      if WindowCopy(w).Some? && s.active && !s.torn {
        RepresentsPut(s.staged, Replay(s.log).staged, w);
      }
    }
  }

  lemma DestroyAnticipates(s: State, e: Event)
    requires Mirrored(s) && GoodEvent(e) && e.kind == DESTROY
    ensures Anticipates(s, DestroyEffect(s, e))
  {
    hide Represents, Find, Remove, Replay, GoodLog, GoodWindow;
    var k := Find(s.windows, e.window.handle, 0);
    if k < |s.windows| && s.active && !s.torn {
      RepresentsRemove(s.windows, Replay(s.log).live, k);
    }
  }

  lemma FoldDelta(v: View, e: Event)
    requires e.kind == CREATE || SHOW <= e.kind <= CHANGED
    ensures Fold(v, e) == v.(live := v.live[e.window.handle := e.window])
  {
  }

  lemma DeltaAnticipates(s: State, e: Event)
    requires Mirrored(s) && GoodEvent(e)
    ensures Anticipates(s, DeltaEffect(s, e))
  {
    hide Represents, WindowCopy, Filled, Find, Put, DeltaKind, Replay, GoodLog, GoodWindow, Fold;
    var k := Find(s.windows, e.window.handle, 0);
    var w := Filled(e.window, s.windows, k, s.windows);
    WindowCopyExact(w);
    if WindowCopy(w).Some? && DeltaEffect(s, e).Send? {
      FoldDelta(Replay(s.log), DeltaEffect(s, e).event);
      if s.active && !s.torn {
        RepresentsPut(s.windows, Replay(s.log).live, w);
      }
    }
  }

  lemma EffectAnticipates(s: State, e: Event)
    requires Mirrored(s) && GoodEvent(e)
    ensures Anticipates(s, EffectOf(s, e))
  {
    hide ItemEffect, DestroyEffect, DeltaEffect, Represents, Replay, GoodLog, GoodWindow;
    RepresentsEmpty();
    if e.kind == SNAPSHOT_ITEM {
      ItemAnticipates(s, e);
    } else if e.kind == DESTROY {
      DestroyAnticipates(s, e);
    } else {
      DeltaAnticipates(s, e);
    }
  }

  lemma ApplyMirrored(s: State, e: Event, delivered: bool)
    requires Mirrored(s) && GoodEvent(e)
    ensures Mirrored(Apply(s, e, delivered).state)
  {
    hide EffectOf, Emit, Represents, Replay, GoodLog, GoodEvent, Fold;
    EffectFramed(s, e);
    EffectAnticipates(s, e);
    match EffectOf(s, e)
    case Send(t, f) => EmitMirrored(t, f, delivered, Fold(Replay(s.log), f));
    case _ =>
  }

  lemma NextMirrored(s: State, step: Step)
    requires Mirrored(s) && Enabled(s, step)
    ensures Mirrored(Next(s, step))
  {
    hide Emit, Apply, Represents, Replay, GoodLog;
    match step
    case Source(e, delivered) => ApplyMirrored(s, e, delivered);
    case SourceLost(delivered) => EmitMirrored(s.(counter := s.counter + 1), RESET_EVENT, delivered, Replay(s.log));
    case _ =>
  }

  lemma {:induction false} RunMirrored(s: State, steps: seq<Step>)
    requires Mirrored(s) && Runnable(s, steps)
    ensures Mirrored(Run(s, steps))
    decreases |steps|
  {
    if steps != [] {
      NextMirrored(s, steps[0]);
      RunMirrored(Next(s, steps[0]), steps[1..]);
    }
  }

  // ----- over the wire -------------------------------------------------------

  function Wire(log: seq<Event>): (r: seq<seq<byte>>)
    requires forall e :: e in log ==> Encodable(e)
    ensures |r| == |log|
  {
    seq(|log|, i requires 0 <= i < |log| => Encode(log[i]))
  }

  /** A client that decodes each payload and folds what it understood; a bad payload ends the stream. */
  function ReplayWire(wire: seq<seq<byte>>): (v: Option<View>) {
    if wire == [] then Some(View(map[], map[]))
    else
      var before := ReplayWire(wire[..|wire| - 1]);
      var e := Decode(wire[|wire| - 1]);
      if before.None? || e.None? then None else Some(Fold(before.value, e.value))
  }

  lemma {:induction false} ReplayWireIsReplay(log: seq<Event>)
    requires GoodLog(log)
    ensures ReplayWire(Wire(log)) == Some(Replay(log))
  {
    hide Fold, Encode, Decode, Encodable, GoodEvent;
    if log != [] {
      var front, last := log[..|log| - 1], log[|log| - 1];
      assert last in log;
      assert forall e :: e in front ==> e in log;
      ReplayWireIsReplay(front);
      EventRoundTrip(last);
      assert Wire(log)[..|log| - 1] == Wire(front);
    }
  }

  lemma EmitGrows(s: State, e: Event, delivered: bool)
    ensures var o := Emit(s, e, delivered);
      if o.ok then |o.state.log| == |s.log| + 1 && s.log <= o.state.log else o.state.log == s.log
  {
    hide Fits;
  }

  /** An event that is swallowed changes neither list, and so neither view. */
  lemma SuppressedChangesNothing(s: State, e: Event, delivered: bool)
    requires Apply(s, e, delivered).ok && Apply(s, e, delivered).state.log == s.log
    ensures Apply(s, e, delivered).state == s
  {
    hide EffectOf, Emit;
    EffectFramed(s, e);
    match EffectOf(s, e)
    case Send(t, f) => EmitGrows(t, f, delivered);
    case _ =>
  }

  // ----- records that do not fit a copy ----------------------------------------

  /** The texts leave no room for the fixed part of the record. */
  predicate Oversize(w: Window) {
    4 * FIXED_WORDS + 20 + TextBytes(w) > MAX_TEXT_BYTES
  }

  /** An item that would be staged, and cannot be copied. */
  predicate LosesItem(s: State, e: Event) {
    e.kind == SNAPSHOT_ITEM && s.pending && Oversize(e.window)
  }

  /** A change that would be applied to the live list, and cannot be copied. */
  predicate LosesDelta(s: State, e: Event) {
    && e.kind != SNAPSHOT_BEGIN && e.kind != SNAPSHOT_END && e.kind != SNAPSHOT_ITEM && e.kind != DESTROY
    && Oversize(e.window)
    && var k := Find(s.windows, e.window.handle, 0);
       (k == |s.windows| || s.windows[k] != Filled(e.window, s.windows, k, s.windows))
  }

  /** The slot of the handle, or a new one, left cleared. */
  function Cleared(list: seq<Window>, h: u64): (r: seq<Window>) {
    Put(list, Find(list, h, 0), NO_WINDOW)
  }

  lemma ItemTears(s: State, e: Event)
    requires GoodEvent(e) && e.kind == SNAPSHOT_ITEM
    ensures LosesItem(s, e) ==> ItemEffect(s, e) == Tear(s.(staged := Cleared(s.staged, e.window.handle), torn := true))
    ensures !LosesItem(s, e) ==> !ItemEffect(s, e).Tear?
  {
    hide WindowCopy, Filled, Find, Put, GoodText;
    var k := Find(s.staged, e.window.handle, 0);
    WindowCopyExact(Filled(e.window, s.staged, k, s.windows));
  }

  lemma DeltaTears(s: State, e: Event)
    requires GoodEvent(e)
    requires e.kind != SNAPSHOT_BEGIN && e.kind != SNAPSHOT_END && e.kind != SNAPSHOT_ITEM && e.kind != DESTROY
    ensures LosesDelta(s, e) ==> DeltaEffect(s, e) == Tear(s.(windows := Cleared(s.windows, e.window.handle), torn := true))
    ensures !LosesDelta(s, e) ==> !DeltaEffect(s, e).Tear?
  {
    hide WindowCopy, Filled, Find, Put, DeltaKind, GoodText;
    var k := Find(s.windows, e.window.handle, 0);
    WindowCopyExact(Filled(e.window, s.windows, k, s.windows));
  }

  /** The one way a record is lost, and what is left in its place. */
  lemma TornExactly(s: State, e: Event, delivered: bool)
    requires GoodEvent(e) && !s.torn
    ensures Apply(s, e, delivered).state.torn <==> LosesItem(s, e) || LosesDelta(s, e)
    ensures LosesItem(s, e) ==>
      Apply(s, e, delivered) == Outcome(s.(staged := Cleared(s.staged, e.window.handle), torn := true), false)
    ensures LosesDelta(s, e) ==>
      Apply(s, e, delivered) == Outcome(s.(windows := Cleared(s.windows, e.window.handle), torn := true), false)
  {
    hide ItemEffect, DeltaEffect, Cleared, Oversize, Find, Remove, Emit, GoodEvent, Filled;
    EffectFramed(s, e);
    if e.kind == SNAPSHOT_ITEM {
      ItemTears(s, e);
    } else if e.kind != SNAPSHOT_BEGIN && e.kind != SNAPSHOT_END && e.kind != DESTROY {
      DeltaTears(s, e);
    }
    match EffectOf(s, e)
    case Send(t, f) => EmitKeepsTorn(t, f, delivered);
    case _ =>
  }

  lemma EmitKeepsTorn(s: State, e: Event, delivered: bool)
    ensures Emit(s, e, delivered).state.torn == s.torn
  {
    hide Fits;
  }

  predicate Reaches(s: State, step: Step) {
    step.Source? && s.subscribed && s.monitor
  }

  /** The handle of the record a run loses from the live list, if it loses one. */
  function LostLive(s: State, steps: seq<Step>): (h: Option<u64>)
    decreases |steps|
  {
    if steps == [] then None
    else if Reaches(s, steps[0]) && LosesDelta(s, steps[0].event) then Some(steps[0].event.window.handle)
    else LostLive(Next(s, steps[0]), steps[1..])
  }

  /** The handle of the record a run loses from the staged list, if it loses one. */
  function LostStaged(s: State, steps: seq<Step>): (h: Option<u64>)
    decreases |steps|
  {
    if steps == [] then None
    else if Reaches(s, steps[0]) && LosesItem(s, steps[0].event) then Some(steps[0].event.window.handle)
    else LostStaged(Next(s, steps[0]), steps[1..])
  }

  ghost predicate SameLists(s: State, t: State) {
    t.windows == s.windows && t.staged == s.staged && t.log == s.log && t.pending == s.pending && t.torn == s.torn
  }

  /** Once the connection's loop has stopped, the lists and what was written stay as they are. */
  lemma {:induction false} RunHalts(s: State, steps: seq<Step>)
    requires !s.running && Runnable(s, steps)
    ensures SameLists(s, Run(s, steps)) && (Run(s, steps).active ==> s.active)
    ensures LostLive(s, steps) == None && LostStaged(s, steps) == None
    decreases |steps|
  {
    hide Apply, Emit, LosesDelta, LosesItem;
    if steps != [] {
      assert steps[0].Grants? || steps[0].Close?;
      RunHalts(Next(s, steps[0]), steps[1..]);
    }
  }

  /** Every record that is kept says where it stacks, which an empty one does not. */
  predicate AllStacked(list: seq<Window>) {
    forall i :: 0 <= i < |list| ==> HasBit(list[i].validFields, FIELD_STACKING)
  }

  predicate Stacked(s: State) {
    AllStacked(s.windows) && AllStacked(s.staged)
  }

  lemma FilledStacked(w: Window, list: seq<Window>, k: nat, live: seq<Window>)
    requires k <= |list|
    ensures HasBit(Filled(w, list, k, live).validFields, FIELD_STACKING)
  {
    hide TopOrder;
    if !HasBit(w.validFields, FIELD_STACKING) {
      var v: int := w.validFields;
      assert (v + FIELD_STACKING) / FIELD_STACKING == v / FIELD_STACKING + 1;
    }
  }

  lemma PutStacked(list: seq<Window>, k: nat, w: Window)
    requires AllStacked(list) && k <= |list| && HasBit(w.validFields, FIELD_STACKING)
    ensures AllStacked(Put(list, k, w))
  {
    hide HasBit;
  }

  lemma RemoveStacked(list: seq<Window>, k: nat)
    requires AllStacked(list) && k < |list|
    ensures AllStacked(Remove(list, k))
  {
    hide HasBit;
  }

  lemma ItemStacked(s: State, e: Event)
    requires Stacked(s)
    ensures ItemEffect(s, e).Send? ==> Stacked(ItemEffect(s, e).state)
  {
    hide WindowCopy, Filled, HasBit, AllStacked, Find, Put;
    var i := Find(s.staged, e.window.handle, 0);
    var w := Filled(e.window, s.staged, i, s.windows);
    WindowCopyExact(w);
    FilledStacked(e.window, s.staged, i, s.windows);
    PutStacked(s.staged, i, w);
  }

  lemma DeltaStacked(s: State, e: Event)
    requires Stacked(s)
    ensures DeltaEffect(s, e).Send? ==> Stacked(DeltaEffect(s, e).state)
  {
    hide WindowCopy, Filled, HasBit, AllStacked, Find, Put, DeltaKind;
    var k := Find(s.windows, e.window.handle, 0);
    var w := Filled(e.window, s.windows, k, s.windows);
    WindowCopyExact(w);
    FilledStacked(e.window, s.windows, k, s.windows);
    PutStacked(s.windows, k, w);
  }

  lemma EffectStacked(s: State, e: Event)
    requires Stacked(s)
    ensures EffectOf(s, e).Send? ==> Stacked(EffectOf(s, e).state)
  {
    hide ItemEffect, DeltaEffect, AllStacked, Find, Remove;
    NoneStacked();
    if e.kind == SNAPSHOT_ITEM {
      ItemStacked(s, e);
    } else if e.kind == DESTROY {
      var k := Find(s.windows, e.window.handle, 0);
      if k < |s.windows| {
        RemoveStacked(s.windows, k);
      }
    } else {
      DeltaStacked(s, e);
    }
  }

  lemma NoneStacked()
    ensures AllStacked([])
  {
  }

  lemma EmitLists(s: State, e: Event, delivered: bool)
    ensures var t := Emit(s, e, delivered).state; t.windows == s.windows && t.staged == s.staged
  {
    hide Fits;
  }

  lemma NextStacked(s: State, step: Step)
    requires Stacked(s) && Enabled(s, step) && !Next(s, step).torn
    ensures Stacked(Next(s, step))
  {
    hide EffectOf, Emit, AllStacked, GoodEvent;
    match step
    case Source(e, delivered) =>
      EffectFramed(s, e);
      EffectStacked(s, e);
      match EffectOf(s, e) {
        case Send(t, f) => EmitLists(t, f, delivered);
        case _ =>
      }
    case SourceLost(delivered) => EmitLists(s.(counter := s.counter + 1), RESET_EVENT, delivered);
    case _ =>
  }

  /** The list represents the map, but for the slot of a lost record. */
  ghost predicate RepresentsBut(list: seq<Window>, m: map<u64, Window>, lost: Option<u64>) {
    if lost.None? then Represents(list, m)
    else exists whole :: Represents(whole, m) && AllStacked(whole) && list == Cleared(whole, lost.value)
  }

  ghost predicate MirroredBut(t: State, live: Option<u64>, staged: Option<u64>) {
    t.active ==>
      && RepresentsBut(t.windows, Replay(t.log).live, live)
      && RepresentsBut(t.staged, Replay(t.log).staged, staged)
  }

  lemma LossMirrored(s: State, step: Step)
    requires Mirrored(s) && Stacked(s) && !s.torn && Enabled(s, step) && Reaches(s, step)
    requires LosesDelta(s, step.event) || LosesItem(s, step.event)
    ensures var t := Next(s, step); var h := step.event.window.handle;
      && !t.running && !(LosesDelta(s, step.event) && LosesItem(s, step.event))
      && MirroredBut(t, if LosesDelta(s, step.event) then Some(h) else None,
                        if LosesItem(s, step.event) then Some(h) else None)
  {
    hide Apply, Represents, Replay, Cleared, GoodLog, GoodEvent, Oversize, AllStacked;
    TornExactly(s, step.event, step.delivered);
  }

  lemma NextWhole(s: State, step: Step)
    requires !s.torn && Enabled(s, step)
    requires Reaches(s, step) ==> !LosesDelta(s, step.event) && !LosesItem(s, step.event)
    ensures !Next(s, step).torn
  {
    hide Apply, Emit, LosesDelta, LosesItem, GoodEvent;
    match step
    case Source(e, delivered) => TornExactly(s, e, delivered);
    case SourceLost(delivered) => EmitKeepsTorn(s.(counter := s.counter + 1), RESET_EVENT, delivered);
    case _ =>
  }

  /** Every run mirrors, but for the slot of the one record it may have lost. */
  lemma {:induction false} RunMirroredBut(s: State, steps: seq<Step>)
    requires Mirrored(s) && Stacked(s) && !s.torn && Runnable(s, steps)
    ensures MirroredBut(Run(s, steps), LostLive(s, steps), LostStaged(s, steps))
    decreases |steps|
  {
    hide Represents, Replay, GoodLog, Next, Enabled, LosesDelta, LosesItem, RepresentsBut, Stacked;
    if steps == [] {
      WholeMirrors(s);
    } else if Reaches(s, steps[0]) && (LosesDelta(s, steps[0].event) || LosesItem(s, steps[0].event)) {
      LossMirrored(s, steps[0]);
      RunHalts(Next(s, steps[0]), steps[1..]);
    } else {
      NextMirrored(s, steps[0]);
      NextWhole(s, steps[0]);
      NextStacked(s, steps[0]);
      RunMirroredBut(Next(s, steps[0]), steps[1..]);
    }
  }

  lemma WholeMirrors(s: State)
    requires Mirrored(s) && !s.torn
    ensures MirroredBut(s, None, None)
  {
    hide Represents, Replay, GoodLog;
  }

  /** No list with a cleared slot is the client's map: nothing it shows is empty. */
  lemma ClearedDiffers(list: seq<Window>, m: map<u64, Window>, h: u64)
    requires Represents(list, m) && AllStacked(list)
    ensures !Represents(Cleared(list, h), m)
  {
    var k, l := Find(list, h, 0), Cleared(list, h);
    assert l[k] == NO_WINDOW && !HasBit(NO_WINDOW.validFields, FIELD_STACKING);
    assert 0 in m ==> m[0] in list;
    assert l[k].handle == 0;
  }

  /**
   * Mirror refinement, exactly. Over every run, a client folding the bytes the
   * lease wrote holds the lease's live list, each handle once, if and only if
   * the run lost no record from it; and the same of the staged list. Each half
   * stands whatever happened to the other.
   */
  lemma ClientMirrorsLease(epoch: u64, steps: seq<Step>)
    requires Runnable(Start(epoch), steps)
    ensures var s := Run(Start(epoch), steps);
      && GoodLog(s.log)
      && ReplayWire(Wire(s.log)) == Some(Replay(s.log))
      && (s.active ==>
            var v := ReplayWire(Wire(s.log)).value;
            var live, staged := LostLive(Start(epoch), steps), LostStaged(Start(epoch), steps);
            && (Represents(s.windows, v.live) <==> live.None?)
            && (Represents(s.staged, v.staged) <==> staged.None?))
  {
    hide Represents, Cleared, Wire, ReplayWire, Replay, Next, LostLive, LostStaged;
    var s := Run(Start(epoch), steps);
    StartMirrored(epoch);
    RunMirrored(Start(epoch), steps);
    RunMirroredBut(Start(epoch), steps);
    ReplayWireIsReplay(s.log);
    if s.active {
      ButExactly(s.windows, Replay(s.log).live, LostLive(Start(epoch), steps));
      ButExactly(s.staged, Replay(s.log).staged, LostStaged(Start(epoch), steps));
    }
  }

  lemma StartMirrored(epoch: u64)
    ensures Mirrored(Start(epoch)) && Stacked(Start(epoch)) && !Start(epoch).torn
  {
  }

  lemma ButExactly(list: seq<Window>, m: map<u64, Window>, lost: Option<u64>)
    requires RepresentsBut(list, m, lost)
    ensures Represents(list, m) <==> lost.None?
  {
    hide Represents, Cleared, AllStacked;
    if lost.Some? {
      var whole :| Represents(whole, m) && AllStacked(whole) && list == Cleared(whole, lost.value);
      ClearedDiffers(whole, m, lost.value);
    }
  }
}

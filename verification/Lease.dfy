module Lease {

  // The window state a lease's mutex protects, the events written from it (numbers modulo 2^64), and every run of it.

  import opened Bytes
  import opened StateWire

  const TWO64: nat := 0x1_0000_0000_0000_0000
  const FIELD_STACKING: nat := 0x8_0000
  const FLAG_VISIBLE: nat := 1
  const FLAG_ACTIVE: nat := 2

  predicate HasBit(x: nat, bit: nat)
    requires bit > 0
  {
    x / bit % 2 == 1
  }

  datatype State = State(
    windows: seq<Window>,
    staged: seq<Window>,
    pending: bool,
    counter: nat,
    active: bool,
    subscribed: bool,
    monitor: bool,
    control: bool,
    epoch: u64,
    log: seq<Event>,
    /** The connection's loop is still reading its sources. */
    running: bool,
    /** A record could not be copied, so a list holds a cleared slot. */
    torn: bool)

  datatype Outcome = Outcome(state: State, ok: bool)

  // ----- lists ---------------------------------------------------------------

  /** The first slot from i on holding the handle, or the end of the list. */
  function Find(list: seq<Window>, handle: u64, i: nat): (k: nat)
    requires i <= |list|
    ensures i <= k <= |list|
    ensures k < |list| ==> list[k].handle == handle
    ensures forall j :: i <= j < k ==> list[j].handle != handle
    decreases |list| - i
  {
    if i == |list| || list[i].handle == handle then i else Find(list, handle, i + 1)
  }

  function Remove(list: seq<Window>, k: nat): (r: seq<Window>)
    requires k < |list|
  {
    list[..k] + list[k + 1..]
  }

  function Put(list: seq<Window>, k: nat, w: Window): (r: seq<Window>)
    requires k <= |list|
  {
    if k < |list| then list[k := w] else list + [w]
  }

  /** The scan that puts a window of unknown order on top; the increment wraps at 64 bits. */
  function TopOrder(list: seq<Window>, i: nat, order: u64): (r: u64)
    requires i <= |list|
    decreases |list| - i
  {
    if i == |list| then order
    else TopOrder(list, i + 1,
                  if list[i].stackingOrder >= order then (list[i].stackingOrder + 1) % TWO64 else order)
  }

  function WithStacking(fields: u64): (r: u64) {
    if HasBit(fields, FIELD_STACKING) then fields
    else
      var q: int, r: int := fields / 0x10_0000, fields % 0x10_0000;
      assert fields == q * 0x10_0000 + r;
      assert fields / FIELD_STACKING == 2 * q + r / FIELD_STACKING;
      assert r < FIELD_STACKING;
      fields + FIELD_STACKING
  }

  /** A record that does not say where it stacks keeps its old place, or goes on top. */
  function Filled(w: Window, list: seq<Window>, k: nat, live: seq<Window>): (r: Window)
    requires k <= |list|
    ensures r.handle == w.handle && (GoodWindow(w) ==> GoodWindow(r)) && TextBytes(r) == TextBytes(w)
  {
    if HasBit(w.validFields, FIELD_STACKING) then w
    else w.(validFields := WithStacking(w.validFields),
            stackingOrder := if k < |list| then list[k].stackingOrder else TopOrder(live, 0, w.stackingOrder))
  }

  /** What a change to a known window is announced as. */
  function DeltaKind(old_: Window, new_: Window): (k: u32)
    ensures SHOW <= k <= CHANGED
  {
    if HasBit(old_.flags, FLAG_VISIBLE) != HasBit(new_.flags, FLAG_VISIBLE) then
      if HasBit(new_.flags, FLAG_VISIBLE) then SHOW else HIDE
    else if HasBit(old_.flags, FLAG_ACTIVE) != HasBit(new_.flags, FLAG_ACTIVE) then ACTIVE
    else if |old_.rects| < 12 || |new_.rects| < 12 || old_.rects[..12] != new_.rects[..12] then GEOMETRY
    else if old_.title != new_.title then TITLE
    else CHANGED
  }

  // ----- emitting ------------------------------------------------------------

  function Stamp(s: State, e: Event): (r: Event) {
    e.(epoch := s.epoch, sequence := s.counter % TWO64)
  }

  predicate Fits(e: Event) {
    Encodable(e) && |Encode(e)| <= MAX_TEXT_BYTES + 256
  }

  /** lease_emit: delivered says whether the socket took the whole frame. */
  function Emit(s: State, e: Event, delivered: bool): (r: Outcome) {
    if !s.active then Outcome(s, false)
    else if Fits(Stamp(s, e)) && delivered then Outcome(s.(log := s.log + [Stamp(s, e)]), true)
    else Outcome(s.(active := false, monitor := false, control := false), false)
  }

  // ----- applying one source event -------------------------------------------

  /** What one source event comes to before anything is sent. */
  datatype Effect =
    | Keep(ok: bool)                      // nothing changes; ok says whether the event was acceptable
    | Tear(state: State)                  // the record could not be copied: its slot is left cleared
    | Send(state: State, event: Event)    // the new state, and the event to write from it

  function BeginEffect(s: State, e: Event): (r: Effect) {
    Send(s.(counter := s.counter + 1, pending := true, staged := []), e)
  }

  function EndEffect(s: State, e: Event): (r: Effect) {
    if !s.pending then Keep(false)
    else Send(s.(windows := s.staged, staged := [], pending := false), e)
  }

  function ItemEffect(s: State, e: Event): (r: Effect) {
    if !s.pending then Keep(false)
    else
      var k := Find(s.staged, e.window.handle, 0);
      var w := Filled(e.window, s.staged, k, s.windows);
      var copy := WindowCopy(w);
      if copy.None? then Tear(s.(staged := Put(s.staged, k, NO_WINDOW), torn := true))
      else Send(s.(staged := Put(s.staged, k, copy.value)), e.(window := w))
  }

  function DestroyEffect(s: State, e: Event): (r: Effect) {
    var k := Find(s.windows, e.window.handle, 0);
    if k == |s.windows| then Keep(true)
    else Send(s.(windows := Remove(s.windows, k), counter := s.counter + 1), e)
  }

  function DeltaEffect(s: State, e: Event): (r: Effect) {
    var k := Find(s.windows, e.window.handle, 0);
    var w := Filled(e.window, s.windows, k, s.windows);
    if k < |s.windows| && s.windows[k] == w then Keep(true)
    else
      var kind := if k == |s.windows| then CREATE else DeltaKind(s.windows[k], w);
      var copy := WindowCopy(w);
      if copy.None? then Tear(s.(windows := Put(s.windows, k, NO_WINDOW), torn := true))
      else Send(s.(windows := Put(s.windows, k, copy.value), counter := s.counter + 1),
                e.(window := w, kind := kind))
  }

  function EffectOf(s: State, e: Event): (r: Effect) {
    if e.kind == SNAPSHOT_BEGIN then BeginEffect(s, e)
    else if e.kind == SNAPSHOT_END then EndEffect(s, e)
    else if e.kind == SNAPSHOT_ITEM then ItemEffect(s, e)
    else if e.kind == DESTROY then DestroyEffect(s, e)
    else DeltaEffect(s, e)
  }

  /** state_window_apply. */
  function Apply(s: State, e: Event, delivered: bool): (r: Outcome) {
    match EffectOf(s, e)
    case Keep(ok) => Outcome(s, ok)
    case Tear(t) => Outcome(t, false)
    case Send(t, f) => Emit(t, f, delivered)
  }

  /** Items and the end of a snapshot travel under the number of what came before them. */
  predicate Shares(kind: u32) {
    kind == SNAPSHOT_ITEM || kind == SNAPSHOT_END
  }

  function Expected(n: nat, kind: u32): (r: nat) {
    if Shares(kind) then n else n + 1
  }

  /** What no effect touches, and how the counter moves. */
  ghost predicate Framed(s: State, r: Effect) {
    match r
    case Keep(_) => true
    case Tear(t) =>
      t.log == s.log && t.active == s.active && t.counter == s.counter && t.epoch == s.epoch && t.torn
    case Send(t, f) =>
      && t.log == s.log && t.active == s.active && t.epoch == s.epoch && t.torn == s.torn
      && t.counter == Expected(s.counter, f.kind)
  }

  lemma ItemFramed(s: State, e: Event)
    requires e.kind == SNAPSHOT_ITEM
    ensures Framed(s, ItemEffect(s, e))
  {
    hide WindowCopy, Filled, Find, Put;
  }

  lemma DeltaFramed(s: State, e: Event)
    ensures Framed(s, DeltaEffect(s, e))
  {
    hide WindowCopy, Filled, Find, Put, DeltaKind;
  }

  lemma MarkerFramed(s: State, e: Event)
    ensures e.kind == SNAPSHOT_BEGIN ==> Framed(s, BeginEffect(s, e))
    ensures e.kind == SNAPSHOT_END ==> Framed(s, EndEffect(s, e))
  {
  }

  lemma DestroyFramed(s: State, e: Event)
    requires e.kind == DESTROY
    ensures Framed(s, DestroyEffect(s, e))
  {
    hide Find, Remove;
  }

  lemma EffectFramed(s: State, e: Event)
    ensures Framed(s, EffectOf(s, e))
  {
    hide BeginEffect, EndEffect, ItemEffect, DestroyEffect, DeltaEffect, Framed;
    if e.kind == SNAPSHOT_ITEM {
      ItemFramed(s, e);
    } else if e.kind == DESTROY {
      DestroyFramed(s, e);
    } else {
      DeltaFramed(s, e);
      MarkerFramed(s, e);
    }
  }

  // ----- runs ----------------------------------------------------------------

  datatype Step =
    | Source(event: Event, delivered: bool)
    | Subscribe(windows: bool)
    | SourceLost(delivered: bool)
    | Grants(monitor: bool, control: bool, notify: bool)
    | Close

  function Start(epoch: u64): (s: State) {
    State([], [], false, 0, true, false, false, false, epoch, [], true, false)
  }

  const RESET_EVENT := Event(RESET, WINDOWS, 0, 0, 0, 0, NO_WINDOW, [])

  predicate Enabled(s: State, step: Step) {
    match step
    case Source(e, _) => s.running && GoodEvent(e) && e.domain == WINDOWS
    case Subscribe(_) => s.running && s.active
    case SourceLost(_) => s.running
    case Grants(_, _, _) => s.active
    case Close => true
  }

  function Next(s: State, step: Step): (r: State) {
    match step
    case Source(e, delivered) =>
      if !s.subscribed || !s.monitor then s
      else
        var o := Apply(s, e, delivered);
        o.state.(running := o.ok)
    case Subscribe(on) => s.(subscribed := on, pending := on)
    case SourceLost(delivered) =>
      if !s.subscribed then s
      else
        var o := Emit(s.(counter := s.counter + 1), RESET_EVENT, delivered);
        o.state.(running := o.ok)
    case Grants(monitor, control, notify) =>
      s.(monitor := monitor, control := control,
         subscribed := s.subscribed && !(notify && s.monitor && !monitor))
    case Close => s.(running := false, active := false, monitor := false, control := false)
  }

  predicate Runnable(s: State, steps: seq<Step>)
    decreases |steps|
  {
    steps == [] || (Enabled(s, steps[0]) && Runnable(Next(s, steps[0]), steps[1..]))
  }

  function Run(s: State, steps: seq<Step>): (r: State)
    decreases |steps|
  {
    if steps == [] then s else Run(Next(s, steps[0]), steps[1..])
  }
}

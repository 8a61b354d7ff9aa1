/** Who holds a relay, under every interleaving of registering, spawning, reuse, forgetting and release. */
module RelayRefs {
  import opened Bytes

  /** A relay in memory: its count, how often it was retired, and whether it was freed. */
  datatype Cell = Cell(refs: nat, retired: nat, freed: bool, origin: nat)   // origin: the registration it was made for

  /** A reference a thread holds. */
  datatype Hold = Hold(thread: nat, relay: nat)

  /** A worker started for a registration, not yet published. */
  datatype Spawned = Spawned(thread: nat, slot: nat, identity: nat, field: nat, relay: nat)

  const FIELDS: nat := 3   // the script channel and the two display workers

  /**
   * The registry is one list of fields, three to a slot. A held reference is
   * dropped by releasing it, an owed one by retiring it.
   */
  datatype State = State(
    relays: seq<Cell>,
    slots: seq<Option<nat>>,     // the identity registered in each slot, if any
    fields: seq<Option<nat>>,
    held: seq<Hold>, owed: seq<Hold>, spawned: seq<Spawned>)

  function Start(slots: nat): (s: State) {
    State([], seq(slots, _ => None), seq(FIELDS * slots, _ => None), [], [], [])
  }

  // ----- counting ------------------------------------------------------------------------

  function FieldKey(f: Option<nat>): (r: Option<nat>) { f }
  function HoldKey(h: Hold): (r: Option<nat>) { Some(h.relay) }
  function SpawnKey(p: Spawned): (r: Option<nat>) { Some(p.relay) }

  function One(key: Option<nat>, r: nat): (n: nat) {
    if key == Some(r) then 1 else 0
  }

  function Count<T>(xs: seq<T>, key: T -> Option<nat>, r: nat): (n: nat) {
    if xs == [] then 0 else Count(xs[..|xs| - 1], key, r) + One(key(xs[|xs| - 1]), r)
  }

  lemma CountAppend<T>(xs: seq<T>, x: T, key: T -> Option<nat>, r: nat)
    ensures Count(xs + [x], key, r) == Count(xs, key, r) + One(key(x), r)
  {
    assert (xs + [x])[..|xs|] == xs;
  }

  lemma {:induction false} CountUpdate<T>(xs: seq<T>, k: nat, x: T, key: T -> Option<nat>, r: nat)
    requires k < |xs|
    ensures Count(xs[k := x], key, r) + One(key(xs[k]), r) == Count(xs, key, r) + One(key(x), r)
    decreases |xs|
  {
    var n := |xs| - 1;
    if k < n {
      CountUpdate(xs[..n], k, x, key, r);
      assert xs[k := x][..n] == xs[..n][k := x];
    } else {
      assert xs[k := x][..n] == xs[..n];
    }
  }

  lemma {:induction false} CountWithout<T>(xs: seq<T>, k: nat, key: T -> Option<nat>, r: nat)
    requires k < |xs|
    ensures Count(Without(xs, k), key, r) + One(key(xs[k]), r) == Count(xs, key, r)
    decreases |xs|
  {
    var n := |xs| - 1;
    if k < n {
      CountWithout(xs[..n], k, key, r);
      assert Without(xs, k)[..n - 1] == Without(xs[..n], k);
      assert Without(xs, k)[n - 1] == xs[n];
    } else {
      assert Without(xs, k) == xs[..n];
    }
  }

  lemma {:induction false} CountAt<T>(xs: seq<T>, k: nat, key: T -> Option<nat>, r: nat)
    requires k < |xs| && key(xs[k]) == Some(r)
    ensures Count(xs, key, r) >= 1
  {
    CountWithout(xs, k, key, r);
  }

  function InFields(s: State, r: nat): (n: nat) { Count(s.fields, FieldKey, r) }
  function InHeld(s: State, r: nat): (n: nat) { Count(s.held, HoldKey, r) }
  function InOwed(s: State, r: nat): (n: nat) { Count(s.owed, HoldKey, r) }
  function InSpawned(s: State, r: nat): (n: nat) { Count(s.spawned, SpawnKey, r) }

  // ----- what always holds --------------------------------------------------------------------

  /** The count is the number of registry fields and threads that hold the relay. */
  ghost predicate Counted(s: State, r: nat)
    requires r < |s.relays|
  {
    s.relays[r].refs == InFields(s, r) + InHeld(s, r) + InOwed(s, r) + InSpawned(s, r)
  }

  /** The reference a relay is created with is published, owed, unpublished, or was given up by retiring it: one of them. */
  ghost predicate Owned(s: State, r: nat)
    requires r < |s.relays|
  {
    InFields(s, r) + InOwed(s, r) + InSpawned(s, r) + s.relays[r].retired == 1
  }

  ghost predicate RelayOk(s: State, r: nat)
    requires r < |s.relays|
  {
    Counted(s, r) && Owned(s, r) && (s.relays[r].freed <==> s.relays[r].refs == 0)
  }

  ghost predicate Named(s: State) {
    && |s.fields| == FIELDS * |s.slots|
    && (forall i :: 0 <= i < |s.fields| && s.fields[i].Some? ==> s.fields[i].value < |s.relays|)
    && (forall i :: 0 <= i < |s.held| ==> s.held[i].relay < |s.relays|)
    && (forall i :: 0 <= i < |s.owed| ==> s.owed[i].relay < |s.relays|)
    && (forall i :: 0 <= i < |s.spawned| ==>
          s.spawned[i].relay < |s.relays| && s.spawned[i].slot < |s.slots| && s.spawned[i].field < FIELDS)
  }

  /** An empty slot holds nothing. */
  ghost predicate Cleared(s: State)
    requires |s.fields| == FIELDS * |s.slots|
  {
    forall j :: 0 <= j < |s.fields| && s.slots[j / FIELDS].None? ==> s.fields[j].None?
  }

  function Field(s: State, i: nat, f: nat): (r: Option<nat>)
    requires i < |s.slots| && f < FIELDS && |s.fields| == FIELDS * |s.slots|
  {
    s.fields[FIELDS * i + f]
  }

  ghost predicate Sound(s: State) {
    Named(s) && Cleared(s) && forall r :: 0 <= r < |s.relays| ==> RelayOk(s, r)
  }

  // ----- steps -----------------------------------------------------------------------------------

  datatype Step =
    | Register(slot: nat, identity: nat, channel: bool)
    | Unregister(thread: nat, slot: nat)
    | Acquire(thread: nat, slot: nat, field: nat)      // a snapshot, or a worker reused
    | Spawn(thread: nat, slot: nat, field: nat)
    | Publish(k: nat)
    | Forget(thread: nat, slot: nat, relay: nat)
    | RetireOwed(k: nat)
    | Release(k: nat)

  predicate Enabled(s: State, step: Step) {
    match step
    case Register(i, _, _) => i < |s.slots| && s.slots[i].None? && |s.fields| == FIELDS * |s.slots|
    case Unregister(_, i) => i < |s.slots| && s.slots[i].Some? && |s.fields| == FIELDS * |s.slots|
    case Acquire(_, i, f) =>
      && i < |s.slots| && f < FIELDS && |s.fields| == FIELDS * |s.slots| && s.slots[i].Some?
      && Field(s, i, f).Some? && Field(s, i, f).value < |s.relays|
    case Spawn(_, i, f) => i < |s.slots| && f < FIELDS && s.slots[i].Some?
    case Publish(k) =>
      && k < |s.spawned| && s.spawned[k].slot < |s.slots| && s.spawned[k].field < FIELDS
      && s.spawned[k].relay < |s.relays| && |s.fields| == FIELDS * |s.slots|
      && var old_ := Field(s, s.spawned[k].slot, s.spawned[k].field); old_.Some? ==> old_.value < |s.relays|
    case Forget(_, i, _) => i < |s.slots| && |s.fields| == FIELDS * |s.slots|
    case RetireOwed(k) => k < |s.owed| && s.owed[k].relay < |s.relays|
    case Release(k) => k < |s.held| && s.held[k].relay < |s.relays| && s.relays[s.held[k].relay].refs > 0
  }

  function Bump(s: State, r: nat): (t: State)
    requires r < |s.relays|
  {
    s.(relays := s.relays[r := s.relays[r].(refs := s.relays[r].refs + 1)])
  }

  /** ksd_kwin_relay_acquire. */
  function Take(s: State, thread: nat, r: nat): (t: State)
    requires r < |s.relays|
  {
    Bump(s, r).(held := s.held + [Hold(thread, r)])
  }

  /** What was in a field becomes a debt of the thread that took it out. */
  function TakeOut(s: State, thread: nat, i: nat): (t: State)
    requires i < |s.fields|
  {
    if s.fields[i].None? then s
    else s.(fields := s.fields[i := None], owed := s.owed + [Hold(thread, s.fields[i].value)])
  }

  /** ksd_kwin_relay_create: one reference, its creator's. */
  function Create(s: State, origin: nat): (t: State) {
    s.(relays := s.relays + [Cell(1, 0, false, origin)])
  }

  /** The last critical section of display_relay_for. */
  function Settle(s: State, k: nat): (t: State)
    requires Enabled(s, Publish(k))
  {
    var p := s.spawned[k];
    var at := FIELDS * p.slot + p.field;
    var rest := s.(spawned := Without(s.spawned, k));
    if s.slots[p.slot] != Some(p.identity) then rest.(owed := s.owed + [Hold(p.thread, p.relay)])
    else if s.fields[at].Some? then Take(rest.(owed := s.owed + [Hold(p.thread, p.relay)]), p.thread, s.fields[at].value)
    else Take(rest.(fields := s.fields[at := Some(p.relay)]), p.thread, p.relay)
  }

  /** ksd_kwin_relay_release. */
  function Drop(s: State, k: nat): (t: State)
    requires Enabled(s, Release(k))
  {
    var r := s.held[k].relay;
    var left := s.relays[r].refs - 1;
    s.(relays := s.relays[r := s.relays[r].(refs := left, freed := left == 0)], held := Without(s.held, k))
  }

  /** The first half of ksd_kwin_relay_retire; the release that follows drops the reference. */
  function Mark(s: State, k: nat): (t: State)
    requires Enabled(s, RetireOwed(k))
  {
    var h := s.owed[k];
    s.(relays := s.relays[h.relay := s.relays[h.relay].(retired := s.relays[h.relay].retired + 1)],
       owed := Without(s.owed, k), held := s.held + [h])
  }

  /** forget_display_relay looks at both display fields; a relay is in at most one, so at most one debt arises. */
  function ForgetField(s: State, thread: nat, i: nat, relay: nat): (t: State)
    requires i < |s.fields|
    ensures |t.fields| == |s.fields|
  {
    if s.fields[i] == Some(relay) then TakeOut(s, thread, i) else s
  }

  function Next(s: State, step: Step): (t: State)
    requires Enabled(s, step)
  {
    match step
    case Register(i, identity, channel) =>
      var t := s.(slots := s.slots[i := Some(identity)]);
      if channel then Create(t, identity).(fields := s.fields[FIELDS * i := Some(|s.relays|)]) else t
    case Unregister(thread, i) =>
      TakeOut(TakeOut(TakeOut(s, thread, FIELDS * i), thread, FIELDS * i + 1), thread, FIELDS * i + 2)
        .(slots := s.slots[i := None])
    case Acquire(thread, i, f) => Take(s, thread, Field(s, i, f).value)
    case Spawn(thread, i, f) =>
      Create(s, s.slots[i].value).(spawned := s.spawned + [Spawned(thread, i, s.slots[i].value, f, |s.relays|)])
    case Publish(k) => Settle(s, k)
    case Forget(thread, i, relay) =>
      ForgetField(ForgetField(s, thread, FIELDS * i + 1, relay), thread, FIELDS * i + 2, relay)
    case RetireOwed(k) => Mark(s, k)
    case Release(k) => Drop(s, k)
  }

  // ----- each step keeps it -------------------------------------------------------------------------

  lemma StartSound(slots: nat)
    ensures Sound(Start(slots))
  {
  }

  lemma {:induction false} CountAbsent<T>(xs: seq<T>, key: T -> Option<nat>, r: nat)
    requires forall i :: 0 <= i < |xs| ==> key(xs[i]) != Some(r)
    ensures Count(xs, key, r) == 0
    decreases |xs|
  {
    if xs != [] {
      CountAbsent(xs[..|xs| - 1], key, r);
    }
  }

  /** A relay just created is held nowhere yet. */
  lemma NewAbsent(s: State)
    requires Named(s)
    ensures var r := |s.relays|; InFields(s, r) == 0 && InHeld(s, r) == 0 && InOwed(s, r) == 0 && InSpawned(s, r) == 0
  {
    CountAbsent(s.fields, FieldKey, |s.relays|);
    CountAbsent(s.held, HoldKey, |s.relays|);
    CountAbsent(s.owed, HoldKey, |s.relays|);
    CountAbsent(s.spawned, SpawnKey, |s.relays|);
  }

  lemma TakeRelay(s: State, thread: nat, r: nat, x: nat)
    requires r < |s.relays| && x < |s.relays| && RelayOk(s, x) && (x == r ==> !s.relays[r].freed)
    ensures RelayOk(Take(s, thread, r), x)
  {
    hide Count;
    CountAppend(s.held, Hold(thread, r), HoldKey, x);
  }

  lemma TakeSound(s: State, thread: nat, r: nat)
    requires Sound(s) && r < |s.relays| && !s.relays[r].freed
    ensures Sound(Take(s, thread, r))
  {
    hide RelayOk;
    var t := Take(s, thread, r);
    forall x | 0 <= x < |t.relays|
      ensures RelayOk(t, x)
    {
      TakeRelay(s, thread, r, x);
    }
  }

  lemma TakeOutRelay(s: State, thread: nat, i: nat, x: nat)
    requires i < |s.fields| && x < |s.relays| && RelayOk(s, x)
    ensures RelayOk(TakeOut(s, thread, i), x)
  {
    hide Count;
    if s.fields[i].Some? {
      CountUpdate(s.fields, i, None, FieldKey, x);
      CountAppend(s.owed, Hold(thread, s.fields[i].value), HoldKey, x);
    }
  }

  /** Taking a reference out of the registry keeps everything. */
  lemma TakeOutSound(s: State, thread: nat, i: nat)
    requires Sound(s) && i < |s.fields|
    ensures Sound(TakeOut(s, thread, i)) && TakeOut(s, thread, i).slots == s.slots
    ensures TakeOut(s, thread, i).fields == s.fields[i := None]
  {
    hide RelayOk;
    var t := TakeOut(s, thread, i);
    assert t.fields == s.fields[i := None];
    forall x | 0 <= x < |t.relays|
      ensures RelayOk(t, x)
    {
      TakeOutRelay(s, thread, i, x);
    }
    assert Named(t);
    assert Cleared(t);
  }

  lemma SlotsOnly(s: State, t: State)
    requires Sound(s) && t == s.(slots := t.slots) && |t.slots| == |s.slots| && Cleared(t)
    ensures Sound(t)
  {
    forall r | 0 <= r < |t.relays|
      ensures RelayOk(t, r)
    {
      assert RelayOk(s, r);
    }
  }

  lemma UnregisterSound(s: State, thread: nat, i: nat)
    requires Sound(s) && Enabled(s, Unregister(thread, i))
    ensures Sound(Next(s, Unregister(thread, i)))
  {
    hide RelayOk, TakeOut;
    TakeOutSound(s, thread, FIELDS * i);
    var a := TakeOut(s, thread, FIELDS * i);
    TakeOutSound(a, thread, FIELDS * i + 1);
    var b := TakeOut(a, thread, FIELDS * i + 1);
    TakeOutSound(b, thread, FIELDS * i + 2);
    var c := TakeOut(b, thread, FIELDS * i + 2);
    SlotsOnly(c, Next(s, Unregister(thread, i)));
  }

  lemma ForgetSound(s: State, thread: nat, i: nat, relay: nat)
    requires Sound(s) && Enabled(s, Forget(thread, i, relay))
    ensures Sound(Next(s, Forget(thread, i, relay)))
  {
    hide Sound, TakeOut;
    if s.fields[FIELDS * i + 1] == Some(relay) {
      TakeOutSound(s, thread, FIELDS * i + 1);
    }
    var a := ForgetField(s, thread, FIELDS * i + 1, relay);
    if a.fields[FIELDS * i + 2] == Some(relay) {
      TakeOutSound(a, thread, FIELDS * i + 2);
    }
  }

  lemma RegisterSound(s: State, i: nat, identity: nat, channel: bool)
    requires Sound(s) && Enabled(s, Register(i, identity, channel))
    ensures Sound(Next(s, Register(i, identity, channel)))
  {
    hide Count;
    var t := Next(s, Register(i, identity, channel));
    var at, n := FIELDS * i, |s.relays|;
    assert s.fields[at].None?;
    NewAbsent(s);
    forall r | 0 <= r < |t.relays|
      ensures RelayOk(t, r)
    {
      if r < n {
        assert RelayOk(s, r);
      }
      if channel {
        CountUpdate(s.fields, at, Some(n), FieldKey, r);
      }
    }
    assert Named(t);
    assert Cleared(t);
  }

  lemma SpawnSound(s: State, thread: nat, i: nat, f: nat)
    requires Sound(s) && Enabled(s, Spawn(thread, i, f))
    ensures Sound(Next(s, Spawn(thread, i, f)))
  {
    hide Count;
    var t, n := Next(s, Spawn(thread, i, f)), |s.relays|;
    NewAbsent(s);
    forall r | 0 <= r < |t.relays|
      ensures RelayOk(t, r)
    {
      if r < n {
        assert RelayOk(s, r);
      }
      CountAppend(s.spawned, Spawned(thread, i, s.slots[i].value, f, n), SpawnKey, r);
    }
    assert Named(t);
    assert Cleared(t);
  }

  /** An unpublished worker that is to be given up. */
  function GiveUp(s: State, k: nat): (t: State)
    requires k < |s.spawned|
  {
    s.(spawned := Without(s.spawned, k), owed := s.owed + [Hold(s.spawned[k].thread, s.spawned[k].relay)])
  }

  lemma GiveUpSound(s: State, k: nat)
    requires Sound(s) && k < |s.spawned|
    ensures Sound(GiveUp(s, k))
  {
    hide Count;
    var t, p := GiveUp(s, k), s.spawned[k];
    forall r | 0 <= r < |t.relays|
      ensures RelayOk(t, r)
    {
      assert RelayOk(s, r);
      CountWithout(s.spawned, k, SpawnKey, r);
      CountAppend(s.owed, Hold(p.thread, p.relay), HoldKey, r);
    }
    assert Named(t);
    assert Cleared(t);
  }

  function Install(s: State, k: nat, at: nat): (t: State)
    requires k < |s.spawned| && at < |s.fields|
  {
    s.(spawned := Without(s.spawned, k), fields := s.fields[at := Some(s.spawned[k].relay)])
  }

  lemma InstallSound(s: State, k: nat)
    requires Sound(s) && Enabled(s, Publish(k))
    requires var p := s.spawned[k]; s.slots[p.slot] == Some(p.identity) && Field(s, p.slot, p.field).None?
    ensures Sound(Install(s, k, FIELDS * s.spawned[k].slot + s.spawned[k].field))
    ensures !s.relays[s.spawned[k].relay].freed
  {
    hide Count;
    var p := s.spawned[k];
    var at := FIELDS * p.slot + p.field;
    var t := Install(s, k, at);
    forall r | 0 <= r < |t.relays|
      ensures RelayOk(t, r)
    {
      assert RelayOk(s, r);
      CountWithout(s.spawned, k, SpawnKey, r);
      CountUpdate(s.fields, at, Some(p.relay), FieldKey, r);
    }
    assert Named(t);
    assert Cleared(t);
    CountAt(s.spawned, k, SpawnKey, p.relay);
    assert RelayOk(s, p.relay);
  }

  /** What a field refers to is alive. */
  lemma PublishedAlive(s: State, at: nat)
    requires Sound(s) && at < |s.fields| && s.fields[at].Some?
    ensures !s.relays[s.fields[at].value].freed
  {
    hide Count;
    CountAt(s.fields, at, FieldKey, s.fields[at].value);
    assert RelayOk(s, s.fields[at].value);
  }

  lemma PublishSound(s: State, k: nat)
    requires Sound(s) && Enabled(s, Publish(k))
    ensures Sound(Settle(s, k))
  {
    hide RelayOk, Count;
    var p := s.spawned[k];
    var at := FIELDS * p.slot + p.field;
    if s.slots[p.slot] != Some(p.identity) {
      GiveUpSound(s, k);
    } else if s.fields[at].Some? {
      GiveUpSound(s, k);
      PublishedAlive(s, at);
      TakeSound(GiveUp(s, k), p.thread, s.fields[at].value);
    } else {
      InstallSound(s, k);
      TakeSound(Install(s, k, at), p.thread, p.relay);
    }
  }

  lemma DropSound(s: State, k: nat)
    requires Sound(s) && Enabled(s, Release(k))
    ensures Sound(Drop(s, k))
  {
    hide Count;
    var t := Drop(s, k);
    forall r | 0 <= r < |t.relays|
      ensures RelayOk(t, r)
    {
      assert RelayOk(s, r);
      CountWithout(s.held, k, HoldKey, r);
    }
    assert Named(t);
    assert Cleared(t);
  }

  lemma MarkSound(s: State, k: nat)
    requires Sound(s) && Enabled(s, RetireOwed(k))
    ensures Sound(Mark(s, k))
  {
    hide Count;
    var t, h := Mark(s, k), s.owed[k];
    forall r | 0 <= r < |t.relays|
      ensures RelayOk(t, r)
    {
      assert RelayOk(s, r);
      CountWithout(s.owed, k, HoldKey, r);
      CountAppend(s.held, h, HoldKey, r);
    }
    assert Named(t);
    assert Cleared(t);
  }

  lemma NextSound(s: State, step: Step)
    requires Sound(s) && Enabled(s, step)
    ensures Sound(Next(s, step))
  {
    hide Sound, Settle, Drop, Mark, Take, TakeOut, Create;
    match step {
      case Register(i, identity, channel) => RegisterSound(s, i, identity, channel);
      case Unregister(thread, i) => UnregisterSound(s, thread, i);
      case Acquire(thread, i, f) =>
        PublishedAlive(s, FIELDS * i + f);
        TakeSound(s, thread, Field(s, i, f).value);
      case Spawn(thread, i, f) => SpawnSound(s, thread, i, f);
      case Publish(k) => PublishSound(s, k);
      case Forget(thread, i, relay) => ForgetSound(s, thread, i, relay);
      case RetireOwed(k) => MarkSound(s, k);
      case Release(k) => DropSound(s, k);
    }
  }

  // ----- whole runs -------------------------------------------------------------------------------------

  ghost predicate Runs(s: State, steps: seq<Step>, last: State)
    decreases |steps|
  {
    if steps == [] then last == s else Enabled(s, steps[0]) && Runs(Next(s, steps[0]), steps[1..], last)
  }

  lemma {:induction false} RunSound(s: State, steps: seq<Step>, last: State)
    requires Sound(s) && Runs(s, steps, last)
    ensures Sound(last)
    decreases |steps|
  {
    hide Sound, Enabled, Next;
    if steps != [] {
      NextSound(s, steps[0]);
      RunSound(Next(s, steps[0]), steps[1..], last);
    }
  }

  /**
   * After any run every relay's count is what refers to it, it has been retired
   * at most once, and it is freed exactly when nothing refers to it.
   */
  lemma CountIsHolders(slots: nat, steps: seq<Step>, s: State, r: nat)
    requires Runs(Start(slots), steps, s) && r < |s.relays|
    ensures s.relays[r].refs == InFields(s, r) + InHeld(s, r) + InOwed(s, r) + InSpawned(s, r)
    ensures s.relays[r].retired <= 1
    ensures s.relays[r].freed <==> s.relays[r].refs == 0
    ensures InFields(s, r) <= 1
  {
    hide Runs, Count;
    StartSound(slots);
    RunSound(Start(slots), steps, s);
    assert RelayOk(s, r);
  }

  /** Whatever a thread or the registry holds is alive, so nothing is used after it was freed. */
  lemma NeverDangling(slots: nat, steps: seq<Step>, s: State)
    requires Runs(Start(slots), steps, s)
    ensures forall k :: 0 <= k < |s.held| ==> s.held[k].relay < |s.relays| && !s.relays[s.held[k].relay].freed
    ensures forall k :: 0 <= k < |s.owed| ==> s.owed[k].relay < |s.relays| && !s.relays[s.owed[k].relay].freed
    ensures forall k :: 0 <= k < |s.spawned| ==> s.spawned[k].relay < |s.relays| && !s.relays[s.spawned[k].relay].freed
    ensures forall i :: 0 <= i < |s.fields| && s.fields[i].Some? ==>
      s.fields[i].value < |s.relays| && !s.relays[s.fields[i].value].freed
  {
    hide Runs, Count;
    StartSound(slots);
    RunSound(Start(slots), steps, s);
    forall k | 0 <= k < |s.held|
      ensures !s.relays[s.held[k].relay].freed
    {
      CountAt(s.held, k, HoldKey, s.held[k].relay);
      assert RelayOk(s, s.held[k].relay);
    }
    forall k | 0 <= k < |s.owed|
      ensures !s.relays[s.owed[k].relay].freed
    {
      CountAt(s.owed, k, HoldKey, s.owed[k].relay);
      assert RelayOk(s, s.owed[k].relay);
    }
    forall k | 0 <= k < |s.spawned|
      ensures !s.relays[s.spawned[k].relay].freed
    {
      CountAt(s.spawned, k, SpawnKey, s.spawned[k].relay);
      assert RelayOk(s, s.spawned[k].relay);
    }
    forall i | 0 <= i < |s.fields| && s.fields[i].Some?
      ensures !s.relays[s.fields[i].value].freed
    {
      PublishedAlive(s, i);
    }
  }

  /** A thread can always release what it holds: the count it lowers is not yet zero. */
  lemma ReleaseEnabled(slots: nat, steps: seq<Step>, s: State, k: nat)
    requires Runs(Start(slots), steps, s) && k < |s.held|
    ensures Enabled(s, Release(k))
  {
    hide Runs, Count;
    StartSound(slots);
    RunSound(Start(slots), steps, s);
    CountAt(s.held, k, HoldKey, s.held[k].relay);
    assert RelayOk(s, s.held[k].relay);
  }

  // ----- whose a relay is ------------------------------------------------------------------------

  /** What a slot's fields hold was made for the registration the slot has now. */
  ghost predicate Homed(s: State)
    requires |s.fields| == FIELDS * |s.slots|
  {
    && (forall j :: 0 <= j < |s.fields| && s.fields[j].Some? ==>
          s.fields[j].value < |s.relays| && s.slots[j / FIELDS] == Some(s.relays[s.fields[j].value].origin))
    && (forall k :: 0 <= k < |s.spawned| ==>
          s.spawned[k].relay < |s.relays| && s.relays[s.spawned[k].relay].origin == s.spawned[k].identity)
  }

  /** What a step does not touch: whom the relays were made for. */
  ghost predicate SameOrigins(s: State, t: State) {
    |s.relays| <= |t.relays| && forall r :: 0 <= r < |s.relays| ==> t.relays[r].origin == s.relays[r].origin
  }

  lemma TakenOut(s: State, thread: nat, i: nat)
    requires i < |s.fields|
    ensures var t := TakeOut(s, thread, i);
      && t.relays == s.relays && t.slots == s.slots && t.spawned == s.spawned && t.held == s.held
      && t.fields == s.fields[i := None]
      && t.owed == s.owed + if s.fields[i].Some? then [Hold(thread, s.fields[i].value)] else []
  {
    assert s.fields[i].None? ==> s.fields[i := None] == s.fields;
  }

  lemma ForgotField(s: State, thread: nat, i: nat, relay: nat)
    requires i < |s.fields|
    ensures var t := ForgetField(s, thread, i, relay);
      && t.relays == s.relays && t.slots == s.slots && t.spawned == s.spawned && |t.fields| == |s.fields|
      && forall j :: 0 <= j < |s.fields| ==> t.fields[j] == s.fields[j] || t.fields[j].None?
  {
  }

  lemma RegisterHomed(s: State, i: nat, identity: nat, channel: bool)
    requires Sound(s) && Homed(s) && Enabled(s, Register(i, identity, channel))
    ensures Homed(Next(s, Register(i, identity, channel)))
  {
    hide RelayOk, Count;
    var t := Next(s, Register(i, identity, channel));
    forall j | 0 <= j < |t.fields| && t.fields[j].Some?
      ensures t.fields[j].value < |t.relays| && t.slots[j / FIELDS] == Some(t.relays[t.fields[j].value].origin)
    {
      if j == FIELDS * i && channel {
        assert j / FIELDS == i;
      } else {
        assert t.fields[j] == s.fields[j] && j / FIELDS != i;
      }
    }
  }

  lemma UnregisterHomed(s: State, thread: nat, i: nat)
    requires Sound(s) && Homed(s) && Enabled(s, Unregister(thread, i))
    ensures Homed(Next(s, Unregister(thread, i)))
    ensures var t := Next(s, Unregister(thread, i));
      && t.slots == s.slots[i := None] && (forall f :: 0 <= f < FIELDS ==> Field(t, i, f).None?)
      && (forall j :: 0 <= j < |s.fields| && j / FIELDS != i ==> t.fields[j] == s.fields[j])
  {
    hide RelayOk, Count, TakeOut;
    var a := TakeOut(s, thread, FIELDS * i);
    TakenOut(s, thread, FIELDS * i);
    var b := TakeOut(a, thread, FIELDS * i + 1);
    TakenOut(a, thread, FIELDS * i + 1);
    TakenOut(b, thread, FIELDS * i + 2);
  }

  lemma PublishHomed(s: State, k: nat)
    requires Sound(s) && Homed(s) && Enabled(s, Publish(k))
    ensures Homed(Next(s, Publish(k)))
  {
    hide RelayOk, Count;
    var p, t := s.spawned[k], Next(s, Publish(k));
    var at := FIELDS * p.slot + p.field;
    assert at / FIELDS == p.slot;
    assert SameOrigins(s, t);
    forall j | 0 <= j < |t.spawned|
      ensures t.spawned[j].relay < |t.relays| && t.relays[t.spawned[j].relay].origin == t.spawned[j].identity
    {
      assert t.spawned[j] == s.spawned[if j < k then j else j + 1];
    }
  }

  lemma NextHomed(s: State, step: Step)
    requires Sound(s) && Homed(s) && Enabled(s, step)
    ensures |Next(s, step).fields| == FIELDS * |Next(s, step).slots| && Homed(Next(s, step))
  {
    hide RelayOk, Count, Settle, TakeOut, ForgetField;
    match step {
      case Register(i, identity, channel) => RegisterHomed(s, i, identity, channel);
      case Unregister(thread, i) =>
        NextSound(s, step);
        UnregisterHomed(s, thread, i);
      case Publish(k) =>
        NextSound(s, step);
        PublishHomed(s, k);
      case Forget(thread, i, relay) =>
        ForgotField(s, thread, FIELDS * i + 1, relay);
        ForgotField(ForgetField(s, thread, FIELDS * i + 1, relay), thread, FIELDS * i + 2, relay);
      case _ =>
    }
  }

  lemma {:induction false} RunHomed(s: State, steps: seq<Step>, last: State)
    requires Sound(s) && Homed(s) && Runs(s, steps, last)
    ensures Sound(last) && Homed(last)
    decreases |steps|
  {
    hide Sound, Homed, Enabled, Next;
    if steps != [] {
      NextSound(s, steps[0]);
      SizesOf(s);
      NextHomed(s, steps[0]);
      SizesOf(Next(s, steps[0]));
      RunHomed(Next(s, steps[0]), steps[1..], last);
    }
  }

  lemma SizesOf(s: State)
    requires Sound(s)
    ensures |s.fields| == FIELDS * |s.slots|
  {
  }

  /**
   * Over every interleaving, whoever looks in a slot finds there only relays
   * made for the registration the slot has now, however long a worker took to
   * start and whoever registered in between.
   */
  lemma FieldsAreHome(slots: nat, steps: seq<Step>, s: State, i: nat, f: nat)
    requires Runs(Start(slots), steps, s) && i < |s.slots| && f < FIELDS
    ensures |s.fields| == FIELDS * |s.slots|
    ensures Field(s, i, f).Some? ==>
      Field(s, i, f).value < |s.relays| && s.slots[i] == Some(s.relays[Field(s, i, f).value].origin)
  {
    hide Runs, Count, RelayOk;
    StartSound(slots);
    RunHomed(Start(slots), steps, s);
    assert (FIELDS * i + f) / FIELDS == i;
  }

  /**
   * Publishing a worker that was spawned: it is installed exactly if its
   * registration is still there and nobody was faster; the thread then holds
   * what the field holds, and a worker that is not installed is its to retire.
   */
  lemma PublishExactly(s: State, k: nat)
    requires Sound(s) && Enabled(s, Publish(k))
    ensures var p, t := s.spawned[k], Next(s, Publish(k));
      var there, free := s.slots[p.slot] == Some(p.identity), Field(s, p.slot, p.field).None?;
      && t.slots == s.slots && |t.fields| == |s.fields| && t.spawned == Without(s.spawned, k)
      && (Field(t, p.slot, p.field) == Some(p.relay) <==> (there && free) || Field(s, p.slot, p.field) == Some(p.relay))
      && (forall j :: 0 <= j < |s.fields| && j != FIELDS * p.slot + p.field ==> t.fields[j] == s.fields[j])
      && (!free ==> t.fields == s.fields)
      && t.owed == s.owed + (if there && free then [] else [Hold(p.thread, p.relay)])
      && (there ==> Field(t, p.slot, p.field).Some? && t.held == s.held + [Hold(p.thread, Field(t, p.slot, p.field).value)])
      && (!there ==> t.held == s.held && t.fields == s.fields)
  {
    hide RelayOk, Count;
    assert s.owed + [] == s.owed;
  }

  /** Forgetting a relay empties the slot's display fields of it, and of nothing else. */
  lemma ForgetExactly(s: State, thread: nat, i: nat, relay: nat)
    requires Sound(s) && Enabled(s, Forget(thread, i, relay))
    ensures var t := Next(s, Forget(thread, i, relay));
      && |t.fields| == |s.fields| && t.slots == s.slots && t.held == s.held
      && forall j :: 0 <= j < |s.fields| ==>
           t.fields[j] ==
             if (j == FIELDS * i + 1 || j == FIELDS * i + 2) && s.fields[j] == Some(relay) then None else s.fields[j]
  {
    hide RelayOk, Count;
  }
}

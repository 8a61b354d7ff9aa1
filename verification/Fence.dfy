/** The numbers on window events, and the number an operation hands back. */
module Fence {
  import opened Bytes
  import opened StateWire
  import opened Lease
  import opened Mirror
  import opened Observed
  import Utf8

  function LastNumber(log: seq<Event>): (n: nat) {
    if log == [] then 0 else log[|log| - 1].sequence
  }

  /** Each event repeats the number before it if it is an item or an end, and is one higher otherwise. */
  predicate Numbered(log: seq<Event>) {
    log == [] ||
    var front := log[..|log| - 1];
    Numbered(front) && log[|log| - 1].sequence == Expected(LastNumber(front), log[|log| - 1].kind)
  }

  /** Unless the 64-bit counter has wrapped, it is the number of the last event written. */
  ghost predicate Counted(s: State) {
    s.counter < TWO64 ==> Numbered(s.log) && (s.active ==> LastNumber(s.log) == s.counter)
  }

  lemma EmitCounted(s: State, t: State, e: Event, delivered: bool)
    requires Counted(s) && t.log == s.log && t.active == s.active
    requires t.counter == Expected(s.counter, e.kind)
    ensures Counted(Emit(t, e, delivered).state) && Emit(t, e, delivered).state.counter == t.counter
  {
    hide Fits;
    if t.active && Fits(Stamp(t, e)) && delivered {
      var log := t.log + [Stamp(t, e)];
      assert log[..|log| - 1] == s.log;
    }
  }

  lemma ApplyCounted(s: State, e: Event, delivered: bool)
    requires Counted(s)
    ensures Counted(Apply(s, e, delivered).state) && s.counter <= Apply(s, e, delivered).state.counter
  {
    hide EffectOf, Emit, Numbered;
    EffectFramed(s, e);
    match EffectOf(s, e)
    case Send(t, f) => EmitCounted(s, t, f, delivered);
    case _ =>
  }

  lemma LostCounted(s: State, delivered: bool)
    requires Counted(s)
    ensures Counted(Next(s, SourceLost(delivered))) && s.counter <= Next(s, SourceLost(delivered)).counter
  {
    hide Emit, Apply, Counted;
    var t := s.(counter := s.counter + 1);
    EmitCounted(s, t, RESET_EVENT, delivered);
    CountedSame(Emit(t, RESET_EVENT, delivered).state, Next(s, SourceLost(delivered)), s);
  }

  lemma SourceCounted(s: State, e: Event, delivered: bool)
    requires Counted(s)
    ensures Counted(Next(s, Source(e, delivered))) && s.counter <= Next(s, Source(e, delivered)).counter
  {
    hide Emit, Apply, Counted;
    ApplyCounted(s, e, delivered);
    CountedSame(Apply(s, e, delivered).state, Next(s, Source(e, delivered)), s);
  }

  lemma NextCounted(s: State, step: Step)
    requires Counted(s)
    ensures Counted(Next(s, step)) && s.counter <= Next(s, step).counter
  {
    match step
    case Source(e, delivered) => SourceCounted(s, e, delivered);
    case SourceLost(delivered) => LostCounted(s, delivered);
    case _ =>
      hide Emit, Apply, Counted;
      CountedSame(s, Next(s, step), s);
  }

  lemma CountedSame(a: State, b: State, c: State)
    requires Counted(a) && Counted(c)
    ensures b.log == a.log && b.counter == a.counter && (b.active ==> a.active) ==> Counted(b)
    ensures b == c ==> Counted(b)
  {
    hide Numbered, LastNumber;
  }

  lemma {:induction false} RunCounted(s: State, steps: seq<Step>)
    requires Counted(s)
    ensures Counted(Run(s, steps)) && s.counter <= Run(s, steps).counter
    decreases |steps|
  {
    hide Next, Counted;
    if steps != [] {
      NextCounted(s, steps[0]);
      RunCounted(Next(s, steps[0]), steps[1..]);
    }
  }

  /** Numbering, over every run: no gap, and a number is shared only with items and ends. */
  lemma NumbersConsecutive(epoch: u64, steps: seq<Step>)
    ensures var s := Run(Start(epoch), steps); s.counter < TWO64 ==> Numbered(s.log)
  {
    RunCounted(Start(epoch), steps);
  }

  lemma {:induction false} NumberedPair(log: seq<Event>, i: nat)
    requires Numbered(log) && i < |log|
    ensures log[i].sequence == Expected(LastNumber(log[..i]), log[i].kind)
  {
    if i < |log| - 1 {
      var front := log[..|log| - 1];
      NumberedPair(front, i);
      assert front[..i] == log[..i];
    }
  }

  lemma {:induction false} NumberedMonotone(log: seq<Event>, i: nat, j: nat)
    requires Numbered(log) && i <= j < |log|
    ensures log[i].sequence <= log[j].sequence
    decreases j
  {
    if i < j {
      NumberedPair(log, j);
      NumberedMonotone(log, i, j - 1);
    }
  }

  // ----- the log only grows --------------------------------------------------

  lemma ApplyExtends(s: State, e: Event, delivered: bool)
    ensures s.log <= Apply(s, e, delivered).state.log
  {
    hide EffectOf, Emit;
    EffectFramed(s, e);
    match EffectOf(s, e)
    case Send(t, f) => EmitGrows(t, f, delivered);
    case _ =>
  }

  lemma NextExtends(s: State, step: Step)
    ensures s.log <= Next(s, step).log
  {
    hide Emit, Apply;
    match step
    case Source(e, delivered) => ApplyExtends(s, e, delivered);
    case SourceLost(delivered) => EmitGrows(s.(counter := s.counter + 1), RESET_EVENT, delivered);
    case _ =>
  }

  lemma {:induction false} RunExtends(s: State, steps: seq<Step>)
    ensures s.log <= Run(s, steps).log
    decreases |steps|
  {
    hide Next;
    if steps != [] {
      NextExtends(s, steps[0]);
      RunExtends(Next(s, steps[0]), steps[1..]);
    }
  }

  lemma StartGood(epoch: u64)
    ensures Mirrored(Start(epoch)) && Counted(Start(epoch))
  {
  }

  // ----- the fence -----------------------------------------------------------

  /**
   * operation_sync's answer at a state: the number after which the caller may
   * rely on the effect, or zero. comparable is false for a restack on a backend
   * whose stacking orders do not reach the edge.
   */
  function SyncFence(s: State, r: Request, before: Option<Window>, comparable: bool): (n: nat) {
    if s.subscribed && comparable && s.active && s.control && ListObserved(s.windows, s.pending, r, before)
    then s.counter % TWO64 else 0
  }

  // ----- when a number is used again ---------------------------------------------

  /** The record can be copied and the event written: sizes only. */
  predicate Sendable(e: Event) {
    && (e.kind == SNAPSHOT_ITEM ==> !Oversize(e.window))
    && 4 * FIXED_WORDS + 20 + TextBytes(e.window) + |e.data| <= MAX_TEXT_BYTES + 256
  }

  /** The step that writes an event under the number n already in force: an item or an end of a pending snapshot. */
  predicate Reuses(s: State, step: Step, n: nat) {
    && Reaches(s, step) && step.delivered && Shares(step.event.kind) && Sendable(step.event)
    && s.active && s.pending && s.counter == n
  }

  /** Some step of the run is such a step. */
  ghost predicate Reused(s: State, steps: seq<Step>, n: nat) {
    exists i :: 0 <= i < |steps| && Reuses(Run(s, steps[..i]), steps[i], n)
  }

  lemma FitsExactly(e: Event)
    requires GoodEvent(e)
    ensures Fits(e) <==> 4 * FIXED_WORDS + 20 + TextBytes(e.window) + |e.data| <= MAX_TEXT_BYTES + 256
  {
    hide Encode, GoodText;
    GoodFields(e);
    EncodeLength(e);
  }

  /** What one emission adds to the log. */
  ghost predicate Writes(s: State, t: State, wrote: bool) {
    && s.counter <= t.counter
    && (if wrote then |t.log| == |s.log| + 1 && s.log <= t.log && t.log[|s.log|].sequence == t.counter % TWO64
        else t.log == s.log)
  }

  lemma EmitWrites(s: State, t: State, e: Event, delivered: bool)
    requires t.log == s.log && s.counter <= t.counter && GoodEvent(e)
    ensures var o := Emit(t, e, delivered).state;
      && o.counter == t.counter
      && Writes(s, o, t.active && delivered
                      && 4 * FIXED_WORDS + 20 + TextBytes(e.window) + |e.data| <= MAX_TEXT_BYTES + 256)
  {
    hide Fits, GoodText;
    FitsExactly(Stamp(t, e));
  }

  /** An item or an end: what it needs to be sent, and as what. */
  lemma SharedEffect(s: State, e: Event)
    requires GoodEvent(e) && Shares(e.kind)
    ensures EffectOf(s, e).Send? <==> s.pending && (e.kind == SNAPSHOT_ITEM ==> !Oversize(e.window))
    ensures EffectOf(s, e).Send? ==>
      var f := EffectOf(s, e).event;
      f.kind == e.kind && GoodEvent(f) && TextBytes(f.window) == TextBytes(e.window) && f.data == e.data
  {
    hide WindowCopy, Filled, Find, Put, GoodText;
    if e.kind == SNAPSHOT_ITEM {
      WindowCopyExact(Filled(e.window, s.staged, Find(s.staged, e.window.handle, 0), s.windows));
    }
  }

  lemma OtherEffect(s: State, e: Event)
    requires !Shares(e.kind)
    ensures EffectOf(s, e).Send? ==> !Shares(EffectOf(s, e).event.kind)
  {
    hide WindowCopy, Filled, Find, Put, Remove, DeltaKind;
  }

  lemma ApplyWrites(s: State, e: Event, delivered: bool)
    requires GoodEvent(e)
    ensures var t := Apply(s, e, delivered).state;
      && (Writes(s, t, true) || Writes(s, t, false))
      && (t.log != s.log && t.counter == s.counter <==>
            delivered && Shares(e.kind) && Sendable(e) && s.active && s.pending)
  {
    hide EffectOf, Emit, GoodEvent, Oversize;
    EffectFramed(s, e);
    if Shares(e.kind) {
      SharedEffect(s, e);
      match EffectOf(s, e)
      case Send(t, f) => EmitWrites(s, t, f, delivered);
      case _ =>
    } else {
      OtherEffect(s, e);
      match EffectOf(s, e)
      case Send(t, f) =>
        EmitGrows(t, f, delivered);
        EmitCounter(t, f, delivered);
        EmitStamps(t, f, delivered);
      case _ =>
    }
  }

  lemma EmitStamps(s: State, e: Event, delivered: bool)
    ensures var o := Emit(s, e, delivered).state;
      |o.log| > |s.log| ==> o.log[|s.log|].sequence == s.counter % TWO64
  {
    hide Fits;
  }

  lemma EmitCounter(s: State, e: Event, delivered: bool)
    ensures Emit(s, e, delivered).state.counter == s.counter
  {
    hide Fits;
  }

  /** One step writes at most one event, under the number then in force, and moves the number unless it reuses it. */
  lemma StepWrites(s: State, step: Step)
    requires Enabled(s, step)
    ensures var t := Next(s, step);
      && (Writes(s, t, true) || Writes(s, t, false))
      && (t.log != s.log && t.counter == s.counter <==> Reuses(s, step, s.counter))
  {
    hide Emit, Apply, GoodEvent, Sendable;
    match step
    case Source(e, delivered) => ApplyWrites(s, e, delivered);
    case SourceLost(delivered) =>
      var t := s.(counter := s.counter + 1);
      EmitGrows(t, RESET_EVENT, delivered);
      EmitCounter(t, RESET_EVENT, delivered);
      EmitStamps(t, RESET_EVENT, delivered);
    case _ =>
  }

  lemma ReusedUnroll(s: State, steps: seq<Step>, n: nat)
    requires steps != []
    ensures Reused(s, steps, n) <==> Reuses(s, steps[0], n) || Reused(Next(s, steps[0]), steps[1..], n)
  {
    hide Next, Reuses;
    var t, rest := Next(s, steps[0]), steps[1..];
    assert steps[..0] == [];
    forall i | 0 < i < |steps|
      ensures Run(s, steps[..i]) == Run(t, rest[..i - 1])
    {
      assert steps[..i][1..] == rest[..i - 1];
    }
    if Reused(s, steps, n) {
      var i :| 0 <= i < |steps| && Reuses(Run(s, steps[..i]), steps[i], n);
      assert i > 0 ==> rest[i - 1] == steps[i];
    }
    if Reused(t, rest, n) {
      var i :| 0 <= i < |rest| && Reuses(Run(t, rest[..i]), rest[i], n);
      assert steps[i + 1] == rest[i] && steps[..i + 1][1..] == rest[..i];
    }
  }

  /** Some event written from position k on carries the number n. */
  ghost predicate Carried(log: seq<Event>, k: nat, n: nat) {
    exists i :: k <= i < |log| && log[i].sequence == n
  }

  lemma CarriedStep(a: seq<Event>, b: seq<Event>, c: seq<Event>, n: nat)
    requires a <= b <= c && |b| <= |a| + 1
    ensures Carried(c, |a|, n) <==> (b != a && b[|a|].sequence == n) || Carried(c, |b|, n)
  {
    if Carried(c, |a|, n) {
      var i :| |a| <= i < |c| && c[i].sequence == n;
      assert i < |b| ==> i == |a| && b[i] == c[i];
    }
  }

  /** From any state on, n is carried again exactly when some step reuses it, and nothing below the counter is written. */
  lemma {:induction false} ReuseFrom(s: State, steps: seq<Step>, n: nat)
    requires Runnable(s, steps) && Counted(s) && n <= s.counter && Run(s, steps).counter < TWO64
    ensures Carried(Run(s, steps).log, |s.log|, n) <==> Reused(s, steps, n)
    ensures forall i :: |s.log| <= i < |Run(s, steps).log| ==> Run(s, steps).log[i].sequence >= s.counter
    decreases |steps|
  {
    hide Next, Enabled, Reuses, Carried, Reused, Counted;
    if steps == [] {
      NothingReused(s, n);
    } else {
      var t, rest := Next(s, steps[0]), steps[1..];
      StepWrites(s, steps[0]);
      NextCounted(s, steps[0]);
      RunCounted(t, rest);
      RunExtends(t, rest);
      ReuseFrom(t, rest, n);
      ReusedUnroll(s, steps, n);
      CarriedStep(s.log, t.log, Run(t, rest).log, n);
      ReusesCounter(s, steps[0], n);
      var last := Run(t, rest).log;
      forall i | |s.log| <= i < |last|
        ensures last[i].sequence >= s.counter
      {
        if i < |t.log| {
          assert last[i] == t.log[i];
        }
      }
    }
  }

  lemma NothingReused(s: State, n: nat)
    ensures !Carried(s.log, |s.log|, n) && !Reused(s, [], n)
  {
  }

  lemma ReusesCounter(s: State, step: Step, n: nat)
    ensures Reuses(s, step, n) <==> s.counter == n && Reuses(s, step, s.counter)
  {
  }

  function Opening(s: State, step: Step, opening: bool): (r: bool) {
    match step
    case Subscribe(_) => true
    case Source(_, _) => opening && !(s.subscribed && s.monitor)
    case _ => opening
  }

  /** After a subscription, the first window event that reaches the lease opens a snapshot. */
  predicate Disciplined(s: State, opening: bool, steps: seq<Step>)
    decreases |steps|
  {
    steps == [] ||
    (&& (opening && Reaches(s, steps[0]) ==> steps[0].event.kind == SNAPSHOT_BEGIN)
     && Disciplined(Next(s, steps[0]), Opening(s, steps[0], opening), steps[1..]))
  }

  /** Only a beginning sets the pending flag, and it moves the counter. */
  lemma ApplyPending(s: State, e: Event, delivered: bool)
    requires s.pending ==> e.kind == SNAPSHOT_BEGIN
    ensures var t := Apply(s, e, delivered).state; s.counter <= t.counter && (t.counter == s.counter ==> !t.pending || t == s)
    ensures e.kind == SNAPSHOT_BEGIN ==> Apply(s, e, delivered).state.counter > s.counter
  {
    hide EffectOf, Emit;
    EffectFramed(s, e);
    EffectPending(s, e);
    match EffectOf(s, e)
    case Send(t, f) => EmitPending(t, f, delivered);
    case _ =>
  }

  lemma EffectPending(s: State, e: Event)
    ensures e.kind == SNAPSHOT_BEGIN ==> EffectOf(s, e).Send? && EffectOf(s, e).event.kind == SNAPSHOT_BEGIN
    ensures e.kind != SNAPSHOT_BEGIN && !s.pending && !EffectOf(s, e).Keep? ==> !EffectOf(s, e).state.pending
  {
    hide WindowCopy, Filled, Find, Put, Remove, DeltaKind;
  }

  lemma EmitPending(s: State, e: Event, delivered: bool)
    ensures var t := Emit(s, e, delivered).state; t.counter == s.counter && t.pending == s.pending
  {
    hide Fits;
  }

  lemma PendingStep(s: State, step: Step, opening: bool)
    requires s.pending ==> opening
    requires opening && Reaches(s, step) ==> step.event.kind == SNAPSHOT_BEGIN
    ensures Next(s, step).counter == s.counter && Next(s, step).pending ==> Opening(s, step, opening)
    ensures s.counter <= Next(s, step).counter
  {
    hide Apply, Emit;
    match step
    case Source(e, delivered) =>
      if Reaches(s, step) {
        ApplyPending(s, e, delivered);
      }
    case SourceLost(delivered) => EmitPending(s.(counter := s.counter + 1), RESET_EVENT, delivered);
    case _ =>
  }

  /** A lease whose subscriptions are answered by a beginning never uses a number again. */
  lemma {:induction false} DisciplinedNeverReuses(s: State, steps: seq<Step>, n: nat, opening: bool)
    requires Disciplined(s, opening, steps) && n <= s.counter && (s.counter == n && s.pending ==> opening)
    ensures !Reused(s, steps, n)
    decreases |steps|
  {
    hide Reused, Next;
    if steps == [] {
      NothingReused(s, n);
    } else {
      var t := Next(s, steps[0]);
      if s.counter == n {
        PendingStep(s, steps[0], opening);
      } else {
        NextGrows(s, steps[0]);
      }
      DisciplinedNeverReuses(t, steps[1..], n, Opening(s, steps[0], opening));
      ReusedUnroll(s, steps, n);
    }
  }

  lemma NextGrows(s: State, step: Step)
    ensures s.counter <= Next(s, step).counter
  {
    hide EffectOf, Fits;
    if step.Source? {
      EffectFramed(s, step.event);
    }
  }

  /** The events numbered at most n, in order: the cut a caller makes in the stream. */
  function UpTo(log: seq<Event>, n: nat): (r: seq<Event>) {
    if log == [] then []
    else
      var front, last := log[..|log| - 1], log[|log| - 1];
      UpTo(front, n) + if last.sequence <= n then [last] else []
  }

  lemma {:induction false} UpToAll(log: seq<Event>, n: nat)
    requires forall i :: 0 <= i < |log| ==> log[i].sequence <= n
    ensures UpTo(log, n) == log
  {
    if log != [] {
      UpToAll(log[..|log| - 1], n);
    }
  }

  lemma {:induction false} UpToCuts(log: seq<Event>, base: seq<Event>, n: nat)
    requires base <= log
    requires forall i :: 0 <= i < |base| ==> base[i].sequence <= n
    requires forall i :: |base| <= i < |log| ==> log[i].sequence > n
    ensures UpTo(log, n) == base
    decreases |log|
  {
    if log == base {
      UpToAll(log, n);
    } else {
      UpToCuts(log[..|log| - 1], base, n);
    }
  }

  lemma NumbersBounded(log: seq<Event>)
    requires Numbered(log)
    ensures forall i :: 0 <= i < |log| ==> log[i].sequence <= LastNumber(log)
  {
    forall i | 0 <= i < |log|
      ensures log[i].sequence <= LastNumber(log)
    {
      NumberedMonotone(log, i, |log| - 1);
    }
  }

  /** In any future at all, the number in force is used again exactly when some step of it reuses it. */
  lemma FenceReusedExactly(epoch: u64, past: seq<Step>, future: seq<Step>)
    requires var s := Run(Start(epoch), past);
      Runnable(Start(epoch), past) && Runnable(s, future) && Run(s, future).counter < TWO64
    ensures var s := Run(Start(epoch), past);
      Carried(Run(s, future).log, |s.log|, s.counter) <==> Reused(s, future, s.counter)
  {
    hide Next, Counted, Carried, Reused;
    StartGood(epoch);
    RunCounted(Start(epoch), past);
    ReuseFrom(Run(Start(epoch), past), future, Run(Start(epoch), past).counter);
  }

  /** What a caller may rely on: nothing later carries n, and cutting the stream at n shows the effect. */
  ghost predicate FenceHolds(log: seq<Event>, later: seq<Event>, n: nat, r: Request, before: Option<Window>) {
    && log <= later
    && (forall i :: |log| <= i < |later| ==> later[i].sequence > n)
    && UpTo(later, n) == log
    && Visible(Replay(UpTo(later, n)).live, r, before)
  }

  /** No record was lost from the live list, or the loss cannot be noticed. */
  ghost predicate Intact(epoch: u64, past: seq<Step>) {
    var h := LostLive(Start(epoch), past);
    h.None? || Hidden(Replay(Run(Start(epoch), past).log).live, h.value)
  }

  /** The lease acknowledges only what the client's windows show, exactly when it is intact. */
  lemma AcknowledgedExactly(epoch: u64, past: seq<Step>)
    requires Runnable(Start(epoch), past)
    requires var s := Run(Start(epoch), past); s.active && !s.pending
    ensures var s := Run(Start(epoch), past); Honest(s.windows, Replay(s.log).live) <==> Intact(epoch, past)
  {
    hide Next, Replay, Represents, Hidden, Honest, Cleared, LostLive, LostStaged;
    var s := Run(Start(epoch), past);
    var live, h := Replay(s.log).live, LostLive(Start(epoch), past);
    StartMirrored(epoch);
    RunMirroredBut(Start(epoch), past);
    if h.None? {
      WholeHonest(s.windows, live);
    } else {
      var whole :| Represents(whole, live) && AllStacked(whole) && s.windows == Cleared(whole, h.value);
      HonestExactly(whole, live, h.value);
    }
  }

  lemma WholeHonest(list: seq<Window>, live: map<u64, Window>)
    requires Represents(list, live)
    ensures Honest(list, live)
  {
    hide ListObserved, Visible, Represents;
    forall r, before | ListObserved(list, false, r, before)
      ensures Visible(live, r, before)
    {
      ListObservedIsVisible(list, live, false, r, before);
    }
  }

  /**
   * The fence. Whenever an operation is handed a number by an intact lease, no
   * event written later carries it unless some step reuses it, and a client
   * that has folded exactly the events numbered at most that number sees the
   * operation's effect; over every run before and every run after.
   */
  lemma FenceSound(epoch: u64, past: seq<Step>, future: seq<Step>,
                   r: Request, before: Option<Window>, comparable: bool)
    requires Runnable(Start(epoch), past) && Intact(epoch, past)
    requires var s := Run(Start(epoch), past);
      && SyncFence(s, r, before, comparable) != 0
      && Runnable(s, future) && Run(s, future).counter < TWO64 && !Reused(s, future, s.counter)
    ensures var s := Run(Start(epoch), past);
      FenceHolds(s.log, Run(s, future).log, SyncFence(s, r, before, comparable), r, before)
  {
    hide Next, Run, Runnable, Replay, ListObserved, Visible, UpTo, Intact, Reused, Counted, SyncFence;
    var s := Run(Start(epoch), past);
    StartGood(epoch);
    RunCounted(Start(epoch), past);
    HandedOut(s, r, before, comparable);
    AcknowledgedExactly(epoch, past);
    FenceCuts(s, future);
  }

  lemma HandedOut(s: State, r: Request, before: Option<Window>, comparable: bool)
    requires SyncFence(s, r, before, comparable) != 0
    ensures s.active && !s.pending && ListObserved(s.windows, false, r, before)
    ensures SyncFence(s, r, before, comparable) == s.counter % TWO64
  {
    hide WindowObserved, Edge, Find;
  }

  lemma HandsOut(s: State, r: Request, before: Option<Window>)
    requires s.active && s.subscribed && s.control && !s.pending && 0 < s.counter < TWO64
    requires ListObserved(s.windows, false, r, before)
    ensures SyncFence(s, r, before, true) == s.counter
  {
    hide ListObserved;
  }

  lemma FenceCuts(s: State, future: seq<Step>)
    requires Counted(s) && s.active && Runnable(s, future) && Run(s, future).counter < TWO64
    ensures var later := Run(s, future).log;
      && s.log <= later && s.counter < TWO64
      && (!Reused(s, future, s.counter) <==> forall i :: |s.log| <= i < |later| ==> later[i].sequence > s.counter)
      && (!Reused(s, future, s.counter) ==> UpTo(later, s.counter) == s.log)
  {
    hide Next, UpTo, Reused, Numbered;
    RunCounted(s, future);
    RunExtends(s, future);
    ReuseFrom(s, future, s.counter);
    NumbersBounded(s.log);
    if !Reused(s, future, s.counter) {
      UpToCuts(Run(s, future).log, s.log, s.counter);
    }
  }

  /**
   * The fence, exactly. At a state where the lease hands out its number, every
   * number it hands out means what it promises, in a given future, if and only
   * if the past lost no record from the live list that can be missed and no
   * step of the future is an item or an end under that number.
   */
  lemma FenceExactly(epoch: u64, past: seq<Step>, future: seq<Step>)
    requires Runnable(Start(epoch), past)
    requires var s := Run(Start(epoch), past);
      && s.active && s.subscribed && s.control && !s.pending && s.counter > 0
      && Runnable(s, future) && Run(s, future).counter < TWO64
    ensures var s := Run(Start(epoch), past); var later := Run(s, future).log;
      (forall r, before :: SyncFence(s, r, before, true) != 0 ==>
         FenceHolds(s.log, later, SyncFence(s, r, before, true), r, before))
      <==> Intact(epoch, past) && !Reused(s, future, s.counter)
  {
    hide Next, Run, Runnable, Replay, ListObserved, Visible, UpTo, Intact, Reused, Counted, Honest, SyncFence;
    var s := Run(Start(epoch), past);
    var later, live := Run(s, future).log, Replay(s.log).live;
    StartGood(epoch);
    RunCounted(Start(epoch), past);
    AcknowledgedExactly(epoch, past);
    FenceCuts(s, future);
    if Intact(epoch, past) && !Reused(s, future, s.counter) {
      forall r, before | SyncFence(s, r, before, true) != 0
        ensures FenceHolds(s.log, later, SyncFence(s, r, before, true), r, before)
      {
        FenceSound(epoch, past, future, r, before, true);
      }
    } else if Reused(s, future, s.counter) {
      ShortObserved(s.windows);
      HandsOut(s, ANY_REQUEST, None);
      assert !FenceHolds(s.log, later, SyncFence(s, ANY_REQUEST, None, true), ANY_REQUEST, None);
    } else {
      var r, before := Dishonest(s.windows, live);
      HandsOut(s, r, before);
      assert !FenceHolds(s.log, later, SyncFence(s, r, before, true), r, before);
    }
  }

  lemma ShortObserved(list: seq<Window>)
    ensures ListObserved(list, false, ANY_REQUEST, None)
  {
  }

  lemma Dishonest(list: seq<Window>, live: map<u64, Window>) returns (r: Request, before: Option<Window>)
    requires !Honest(list, live)
    ensures ListObserved(list, false, r, before) && !Visible(live, r, before)
  {
    hide ListObserved, Visible;
    r, before :| ListObserved(list, false, r, before) && !Visible(live, r, before);
  }

  // ----- the numbers within a snapshot -----------------------------------------------

  /** Two events of a log share a number exactly when everything from the one to the other is an item or an end. */
  lemma {:induction false} SharedNumber(log: seq<Event>, i: nat, j: nat)
    requires Numbered(log) && i <= j < |log|
    ensures log[j].sequence == log[i].sequence <==> forall k :: i < k <= j ==> Shares(log[k].kind)
    decreases j
  {
    hide Numbered;
    if i < j {
      SharedNumber(log, i, j - 1);
      NumberedMonotone(log, i, j - 1);
      NumberedPair(log, j);
      assert log[..j][j - 1] == log[j - 1];
    }
  }

  /** The step moves the counter: a beginning, a change that alters the live list, or the end of a source. */
  predicate Moves(s: State, step: Step) {
    match step
    case Source(e, _) =>
      && s.subscribed && s.monitor
      && var k := Find(s.windows, e.window.handle, 0);
         if e.kind == SNAPSHOT_BEGIN then true
         else if Shares(e.kind) then false
         else if e.kind == DESTROY then k < |s.windows|
         else !Oversize(e.window) && (k == |s.windows| || s.windows[k] != Filled(e.window, s.windows, k, s.windows))
    case SourceLost(_) => s.subscribed
    case _ => false
  }

  lemma EffectMoves(s: State, e: Event)
    requires GoodEvent(e) && s.subscribed && s.monitor
    ensures EffectOf(s, e).Send? && !Shares(EffectOf(s, e).event.kind) <==> Moves(s, Source(e, true))
  {
    hide WindowCopy, Filled, Find, Put, Remove, DeltaKind, GoodText;
    var k := Find(s.windows, e.window.handle, 0);
    WindowCopyExact(Filled(e.window, s.windows, k, s.windows));
  }

  lemma MovesExactly(s: State, step: Step)
    requires Enabled(s, step)
    ensures Next(s, step).counter == s.counter + if Moves(s, step) then 1 else 0
  {
    hide EffectOf, Emit, GoodEvent;
    match step
    case Source(e, delivered) =>
      if s.subscribed && s.monitor {
        hide Moves;
        EffectFramed(s, e);
        EffectMoves(s, e);
        MovesSame(s, e, delivered);
        match EffectOf(s, e)
        case Send(t, f) => EmitCounter(t, f, delivered);
        case _ =>
      }
    case SourceLost(delivered) => EmitCounter(s.(counter := s.counter + 1), RESET_EVENT, delivered);
    case _ =>
  }

  lemma MovesSame(s: State, e: Event, delivered: bool)
    ensures Moves(s, Source(e, delivered)) <==> Moves(s, Source(e, true))
  {
  }

  /** Some step of the run moves the counter. */
  ghost predicate Moved(s: State, steps: seq<Step>) {
    exists i :: 0 <= i < |steps| && Moves(Run(s, steps[..i]), steps[i])
  }

  lemma MovedUnroll(s: State, steps: seq<Step>)
    requires steps != []
    ensures Moved(s, steps) <==> Moves(s, steps[0]) || Moved(Next(s, steps[0]), steps[1..])
  {
    hide Next, Moves;
    var t, rest := Next(s, steps[0]), steps[1..];
    assert steps[..0] == [];
    forall i | 0 < i < |steps|
      ensures Run(s, steps[..i]) == Run(t, rest[..i - 1])
    {
      assert steps[..i][1..] == rest[..i - 1];
    }
    if Moved(s, steps) {
      var i :| 0 <= i < |steps| && Moves(Run(s, steps[..i]), steps[i]);
      assert i > 0 ==> rest[i - 1] == steps[i];
    }
    if Moved(t, rest) {
      var i :| 0 <= i < |rest| && Moves(Run(t, rest[..i]), rest[i]);
      assert steps[i + 1] == rest[i] && steps[..i + 1][1..] == rest[..i];
    }
  }

  lemma {:induction false} CounterStandsExactly(s: State, steps: seq<Step>)
    requires Runnable(s, steps)
    ensures Run(s, steps).counter >= s.counter
    ensures Run(s, steps).counter == s.counter <==> !Moved(s, steps)
    decreases |steps|
  {
    hide Next, Enabled, Moves, Moved;
    if steps == [] {
      NothingMoved(s);
    } else {
      MovesExactly(s, steps[0]);
      MovedUnroll(s, steps);
      CounterStandsExactly(Next(s, steps[0]), steps[1..]);
    }
  }

  lemma NothingMoved(s: State)
    ensures !Moved(s, [])
  {
  }

  /**
   * The number of a snapshot. From any state, a beginning that is written and an
   * item or end that is written after it, whatever lies between them, carry the
   * same number exactly when no step between them moves the counter.
   */
  lemma SnapshotSharesExactly(s: State, begin: Step, between: seq<Step>, end: Step)
    requires Enabled(s, begin) && begin.Source? && begin.event.kind == SNAPSHOT_BEGIN && Next(s, begin).log != s.log
    requires var t := Next(s, begin); var u := Run(t, between);
      && Runnable(t, between) && Enabled(u, end) && end.Source? && Shares(end.event.kind)
      && Next(u, end).log != u.log && Next(u, end).counter < TWO64
    ensures var t := Next(s, begin); var u := Run(t, between); var later := Next(u, end).log;
      && |s.log| < |u.log| < |later|
      && (later[|u.log|].sequence == later[|s.log|].sequence <==> !Moved(t, between))
  {
    hide Next, Run, Runnable, Enabled, Moved;
    var t := Next(s, begin);
    var u := Run(t, between);
    StepWrites(s, begin);
    CounterStandsExactly(t, between);
    RunExtends(t, between);
    StepWrites(u, end);
    SharedStands(u, end);
    MovesExactly(u, end);
  }

  lemma SharedStands(s: State, step: Step)
    requires step.Source? && Shares(step.event.kind)
    ensures !Moves(s, step)
  {
  }

  /** A window that appears between the two: the end carries a higher number than the beginning. */
  lemma SnapshotNumbersDiffer(epoch: u64) returns (steps: seq<Step>, w: Window)
    ensures Runnable(Start(epoch), steps)
    ensures var s := Run(Start(epoch), SETTLED); var log := Run(Start(epoch), steps).log;
      && steps == SETTLED + [Source(BEGIN_EVENT, true)] + [Source(Changed(w), true)] + [Source(END_EVENT, true)]
      && |log| == |s.log| + 3
      && log[|s.log|].kind == SNAPSHOT_BEGIN && log[|s.log|].sequence == 2
      && log[|s.log| + 2].kind == SNAPSHOT_END && log[|s.log| + 2].sequence == 3
  {
    hide GoodEvent, Next, Run, Runnable;
    MarkerGood();
    w := NO_WINDOW.(handle := 7, validFields := FIELD_STACKING);
    SmallGood(w);
    var s := Settled(epoch);
    var first := SETTLED + [Source(BEGIN_EVENT, true)];
    var second := first + [Source(Changed(w), true)];
    steps := second + [Source(END_EVENT, true)];
    RunAppend(Start(epoch), SETTLED, Source(BEGIN_EVENT, true));
    RunAppend(Start(epoch), first, Source(Changed(w), true));
    RunAppend(Start(epoch), second, Source(END_EVENT, true));
    var t := BeginWritten(s);
    var u := SmallWritten(t, w);
    var v := EndWritten(u);
    assert v.log[|s.log|] == t.log[|s.log|];
  }

  lemma MarkerGood()
    ensures GoodEvent(BEGIN_EVENT) && GoodEvent(END_EVENT)
  {
    MarkerEvents();
  }

  lemma BeginWritten(s: State) returns (t: State)
    requires s.active && s.subscribed && s.monitor && s.counter + 1 < TWO64
    ensures t == Next(s, Source(BEGIN_EVENT, true))
    ensures t == s.(counter := s.counter + 1, pending := true, staged := [], running := true, log := t.log)
    ensures t.log == s.log + [BEGIN_EVENT.(epoch := s.epoch, sequence := s.counter + 1)]
  {
    hide Fits;
    MarkerEvents();
    t := Next(s, Source(BEGIN_EVENT, true));
  }

  lemma EndWritten(s: State) returns (t: State)
    requires s.active && s.subscribed && s.monitor && s.pending && s.counter < TWO64
    ensures t == Next(s, Source(END_EVENT, true))
    ensures t.log == s.log + [END_EVENT.(epoch := s.epoch, sequence := s.counter)]
  {
    hide Fits;
    MarkerEvents();
    t := Next(s, Source(END_EVENT, true));
  }

  // ----- two ways to lose the fence --------------------------------------------

  const BEGIN_EVENT := RESET_EVENT.(kind := SNAPSHOT_BEGIN)
  const END_EVENT := RESET_EVENT.(kind := SNAPSHOT_END)
  /** A request too short to name a window: observed whenever no snapshot is pending. */
  const ANY_REQUEST := Request(OP_FOCUS, [])

  lemma MarkerEvents()
    ensures GoodEvent(BEGIN_EVENT) && GoodEvent(END_EVENT)
    ensures forall n: u64, m: u64 :: Fits(BEGIN_EVENT.(epoch := n, sequence := m))
    ensures forall n: u64, m: u64 :: Fits(END_EVENT.(epoch := n, sequence := m))
  {
    hide Encode;
    forall n: u64, m: u64, k: u32 | k == SNAPSHOT_BEGIN || k == SNAPSHOT_END
      ensures Fits(RESET_EVENT.(kind := k, epoch := n, sequence := m))
    {
      var e := RESET_EVENT.(kind := k, epoch := n, sequence := m);
      assert forall t :: t in TextFields(e) ==> t == [];
      EncodeLength(e);
    }
  }

  const SETTLED := [Subscribe(true), Grants(true, true, true), Source(BEGIN_EVENT, true), Source(END_EVENT, true)]

  /**
   * A source that opens with a beginning is not enough. The lease subscribes
   * again; a connection that joins it refreshes its grants without notice and
   * finds monitoring gone, so the beginning is swallowed; monitoring comes back,
   * and the end is written under the number already handed out.
   */
  lemma SwallowedBegin(epoch: u64)
    ensures
      var future := [Subscribe(true), Grants(false, true, false), Source(BEGIN_EVENT, true),
                     Grants(true, true, true), Source(END_EVENT, true)];
      var s := Run(Start(epoch), SETTLED);
      var later := Run(s, future).log;
      && Runnable(Start(epoch), SETTLED) && Runnable(s, future) && !s.torn
      && SyncFence(s, ANY_REQUEST, None, true) == 1
      && |later| == |s.log| + 1 && later[|s.log|].sequence == 1
  {
    hide Fits, GoodEvent;
    MarkerEvents();
    var s := Settled(epoch);
    var t1 := Next(s, Subscribe(true));
    var t2 := Next(t1, Grants(false, true, false));
    var t3 := Next(t2, Source(BEGIN_EVENT, true));
    var t4 := Next(t3, Grants(true, true, true));
    var four := [Subscribe(true), Grants(false, true, false), Source(BEGIN_EVENT, true), Grants(true, true, true)];
    RunFour(s, four, t1, t2, t3, t4);
    RunAppend(s, four, Source(END_EVENT, true));
    assert four + [Source(END_EVENT, true)] == [Subscribe(true), Grants(false, true, false), Source(BEGIN_EVENT, true),
                                                Grants(true, true, true), Source(END_EVENT, true)];
  }

  /** Subscribed, granted, and one empty snapshot delivered. */
  lemma Settled(epoch: u64) returns (s: State)
    ensures Runnable(Start(epoch), SETTLED) && s == Run(Start(epoch), SETTLED)
    ensures s.windows == [] && s.counter == 1 && s.active && s.subscribed && s.monitor && s.control
    ensures !s.pending && s.running && !s.torn && s.epoch == epoch
  {
    hide Fits, GoodEvent;
    MarkerEvents();
    var s0 := Start(epoch);
    var s1 := Next(s0, Subscribe(true));
    var s2 := Next(s1, Grants(true, true, true));
    var s3 := Next(s2, Source(BEGIN_EVENT, true));
    s := Next(s3, Source(END_EVENT, true));
    RunFour(s0, SETTLED, s1, s2, s3, s);
  }

  lemma RunTwo(s: State, steps: seq<Step>, a: State, b: State)
    requires |steps| == 2 && a == Next(s, steps[0]) && b == Next(a, steps[1])
    ensures Run(s, steps) == b
    ensures Runnable(s, steps) <==> Enabled(s, steps[0]) && Enabled(a, steps[1])
  {
    hide Next, Enabled;
    assert steps[1..][1..] == [];
    assert Run(a, steps[1..]) == b;
    assert Runnable(a, steps[1..]) <==> Enabled(a, steps[1]);
  }

  lemma RunFour(s: State, steps: seq<Step>, a: State, b: State, c: State, d: State)
    requires |steps| == 4
    requires a == Next(s, steps[0]) && b == Next(a, steps[1]) && c == Next(b, steps[2]) && d == Next(c, steps[3])
    ensures Run(s, steps) == d
    ensures Runnable(s, steps) <==>
      Enabled(s, steps[0]) && Enabled(a, steps[1]) && Enabled(b, steps[2]) && Enabled(c, steps[3])
  {
    hide Next, Enabled;
    var tail := steps[1..];
    assert tail[1..] == steps[2..];
    RunTwo(b, steps[2..], c, d);
    assert Run(a, tail) == d;
    assert Runnable(a, tail) <==> Enabled(a, steps[1]) && Enabled(b, steps[2]) && Enabled(c, steps[3]);
  }

  /**
   * The other way: a change too large to copy clears its slot before it fails.
   * Until the connection's loop notices, the lease is active and acknowledges,
   * under the current number, something the client, which was sent nothing,
   * does not show: for every loss that is not hidden there is such a request.
   */
  lemma TornFence(s: State, e: Event, delivered: bool) returns (r: Request, before: Option<Window>)
    requires Mirrored(s) && s.active && !s.torn && s.subscribed && s.monitor && s.control && !s.pending
    requires s.running && 0 < s.counter < TWO64
    requires GoodEvent(e) && e.domain == WINDOWS && LosesDelta(s, e)
    requires !Hidden(Replay(s.log).live, e.window.handle)
    ensures var t := Next(s, Source(e, delivered));
      && Enabled(s, Source(e, delivered)) && t.torn && t.log == s.log
      && SyncFence(t, r, before, true) == s.counter
      && !Visible(Replay(t.log).live, r, before)
  {
    hide Apply, Replay, Represents, Cleared, GoodLog, GoodEvent, LosesDelta, LosesItem, Hidden, ListObserved, Visible;
    TornExactly(s, e, delivered);
    r, before := LossMisleads(s.windows, Replay(s.log).live, e.window.handle);
  }

  lemma {:induction false} AsciiIsText(s: seq<byte>)
    requires forall i :: 0 <= i < |s| ==> 1 <= s[i] < 0x80
    ensures Utf8.Valid(s, false)
    decreases |s|
  {
    if s != [] {
      Utf8.Accumulated(s[0], s[1..1]);
      AsciiIsText(s[1..]);
    }
  }

  function Changed(w: Window): (e: Event) {
    Event(CHANGED, WINDOWS, 0, 0, 0, 0, w, [])
  }

  /**
   * Such a state and such a change exist: one window, then a title for it that
   * leaves its record six bytes too long to copy, in an event that every source
   * may still send.
   */
  lemma TornFenceReachable(epoch: u64) returns (past: seq<Step>, small: Window, big: Window)
    ensures Runnable(Start(epoch), past)
    ensures var s := Run(Start(epoch), past);
      && Mirrored(s) && s.active && !s.torn && s.subscribed && s.monitor && s.control && !s.pending && s.running
      && s.counter == 2 && s.windows == [small] && small.handle == big.handle == 7
      && LosesDelta(s, Changed(big)) && !Hidden(Replay(s.log).live, 7)
    ensures GoodEvent(Changed(big)) && Encodable(Changed(big)) && |Encode(Changed(big))| == MAX_TEXT_BYTES + 6
  {
    hide Fits, GoodEvent, Encode, Replay, Represents, Find;
    small := NO_WINDOW.(handle := 7, validFields := FIELD_STACKING);
    big := small.(title := seq(MAX_TEXT_BYTES - 146, i => 0x61));
    AsciiIsText(big.title);
    BigEncodes(big);
    var s4 := Settled(epoch);
    var last := Source(Changed(small), true);
    past := SETTLED + [last];
    SmallGood(small);
    var s5 := SmallWritten(s4, small);
    RunAppend(Start(epoch), SETTLED, last);
    StartGood(epoch);
    RunMirrored(Start(epoch), past);
    var s := Run(Start(epoch), past);
    OneWindow(s.windows, Replay(s.log).live);
  }

  lemma SmallGood(w: Window)
    requires w == NO_WINDOW.(handle := 7, validFields := FIELD_STACKING)
    ensures GoodEvent(Changed(w))
  {
    CarrierGood(w);
  }

  lemma BigEncodes(w: Window)
    requires |w.rects| == 14 && |w.title| == MAX_TEXT_BYTES - 146 && Utf8.Valid(w.title, false)
    requires w.appId == [] && w.captureId == [] && w.compositorId == []
    ensures GoodEvent(Changed(w)) && Encodable(Changed(w)) && |Encode(Changed(w))| == MAX_TEXT_BYTES + 6
  {
    hide Encode;
    assert Utf8.Valid([], false);
    GoodFields(Changed(w));
    EncodeLength(Changed(w));
  }

  lemma OneWindow(list: seq<Window>, live: map<u64, Window>)
    requires Represents(list, live) && |list| == 1 && list[0].handle == 7
    ensures 7 in live && 0 !in live
  {
    assert forall h :: h in live ==> live[h] in list && live[h].handle == h;
  }

  lemma SmallWritten(s: State, w: Window) returns (t: State)
    requires s.active && s.subscribed && s.monitor && s.windows == [] && s.counter + 1 < TWO64 && s.running
    requires w == NO_WINDOW.(handle := 7, validFields := FIELD_STACKING) && GoodEvent(Changed(w))
    ensures t == Next(s, Source(Changed(w), true)) && |t.log| == |s.log| + 1 && s.log <= t.log
    ensures t == s.(windows := [w], counter := s.counter + 1, log := t.log)
  {
    hide WindowCopy, Encode;
    t := Next(s, Source(Changed(w), true));
    WindowCopyExact(w);
    CarrierGood(w);
    var e := Changed(w).(kind := CREATE, epoch := s.epoch, sequence := s.counter + 1);
    assert forall x :: x in TextFields(e) ==> x == [];
    EncodeLength(e);
  }

  lemma {:induction false} RunAppend(s: State, steps: seq<Step>, last: Step)
    ensures Run(s, steps + [last]) == Next(Run(s, steps), last)
    ensures Runnable(s, steps + [last]) <==> Runnable(s, steps) && Enabled(Run(s, steps), last)
    decreases |steps|
  {
    hide Next, Enabled;
    var all := steps + [last];
    if steps == [] {
      assert all[1..] == [];
    } else {
      assert all[1..] == steps[1..] + [last];
      RunAppend(Next(s, steps[0]), steps[1..], last);
    }
  }
}

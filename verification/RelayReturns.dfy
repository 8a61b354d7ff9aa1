/** What a relayed call returns, exactly: decided by the responses read, whatever the interleaving. */
module RelayReturns {
  import opened Bytes
  import opened Frames
  import opened Relay

  /** A response of the call's id has been read since it began. */
  ghost predicate Read(responses: seq<Frame>, th: Thread) {
    exists j :: th.base <= j < |responses| && responses[j].requestId == th.id
  }

  lemma HeldAnswer(s: State, t: nat)
    requires Reachable(s) && t < |s.threads| && !s.threads[t].pc.Over?
    ensures var th := s.threads[t]; th.slot < |s.pending| && s.pending[th.slot].Taken?
    ensures var th := s.threads[t]; s.pending[th.slot].done.Some? <==> Read(s.responses, th)
    ensures var th := s.threads[t];
      s.pending[th.slot].done.Some? ==> FirstAnswer(s.responses, th.id, th.base, s.pending[th.slot].done.value)
    ensures s.threads[t].sent ==> s.threads[t].attempted
  {
    hide Reachable, PackAll, Pack, Needed, OutputOk, InputOk, Distinct;
    ReachableSound(s);
    assert ThreadOk(s, t);
    var done := s.pending[s.threads[t].slot].done;
    if done.Some? {
      assert s.responses[done.value.index].requestId == s.threads[t].id;
    }
  }

  /** What becomes of a call when it leaves the loop. */
  ghost predicate Settled(th: Thread, responses: seq<Frame>)
    requires th.pc.Over?
  {
    && !th.pc.result.Unavailable?
    && (th.pc.result.Answered? <==> Read(responses, th))
    && (th.pc.result.Answered? ==> FirstAnswer(responses, th.id, th.base, th.pc.result.reply))
    && (th.pc.result.Busy? <==> !Read(responses, th) && !th.attempted)
    && (th.pc.result.TimedOut? <==> !Read(responses, th) && th.attempted)
  }

  lemma FinishSettles(s: State, t: nat)
    requires t < |s.threads| && !s.threads[t].pc.Over? && s.threads[t].slot < |s.pending| && s.pending[s.threads[t].slot].Taken?
    requires var th, slot := s.threads[t], s.pending[s.threads[t].slot];
      && (slot.done.Some? <==> Read(s.responses, th))
      && (slot.done.Some? ==> FirstAnswer(s.responses, th.id, th.base, slot.done.value))
      && (th.sent ==> th.attempted)
    ensures Finish(s, t).threads[t].pc.Over? && Settled(Finish(s, t).threads[t], s.responses)
    ensures forall u :: 0 <= u < |s.threads| && u != t && !s.threads[u].pc.Over? ==> !Finish(s, t).threads[u].pc.Over?
  {
    hide FirstAnswer;
    var th := s.threads[t].(pc := Over(Outcome(s.threads[t], s.pending[s.threads[t].slot])));
    assert Finish(s, t).threads[t] == th;
    assert Read(s.responses, th) <==> Read(s.responses, s.threads[t]);
  }

  /** The three steps in which a call may return: its turns at the loop. */
  predicate OwnTurn(step: Step, t: nat) {
    match step
    case EnterLoop(u, _) => u == t
    case WakeRead(u, _, _) => u == t
    case ReadEnd(u, _, _) => u == t
    case _ => false
  }

  lemma TopSettles(s: State, t: nat, expired: bool)
    requires t < |s.threads| && !s.threads[t].pc.Over? && s.threads[t].slot < |s.pending| && s.pending[s.threads[t].slot].Taken?
    requires var th, slot := s.threads[t], s.pending[s.threads[t].slot];
      && (slot.done.Some? <==> Read(s.responses, th))
      && (slot.done.Some? ==> FirstAnswer(s.responses, th.id, th.base, slot.done.value))
      && (th.sent ==> th.attempted)
    ensures var r := Top(s, t, expired);
      && (r.threads[t].pc.Over? ==> Settled(r.threads[t], s.responses))
      && (r.threads[t].pc.Over? <==> !s.threads[t].sent || Read(s.responses, s.threads[t]) || s.broken || expired)
      && r.responses == s.responses
      && forall u :: 0 <= u < |s.threads| && u != t && !s.threads[u].pc.Over? ==> !r.threads[u].pc.Over?
  {
    hide FirstAnswer, Finish, Settled;
    FinishSettles(s, t);
    FinishKeeps(s, t);
  }

  lemma FinishKeeps(s: State, t: nat)
    requires t < |s.threads| && s.threads[t].slot < |s.pending|
    ensures Finish(s, t).responses == s.responses
  {
  }

  lemma OthersLive(s: State, step: Step, t: nat)
    requires Reachable(s) && Enabled(s, step) && Shaped(s)
    requires t < |s.threads| && !s.threads[t].pc.Over? && !OwnTurn(step, t)
    ensures t < |Next(s, step).threads| && !Next(s, step).threads[t].pc.Over?
  {
    hide Reachable, FirstAnswer, Top, Finish, Pack, Needed, Match, FirstVacant, Settled, Read, Ready;
    match step {
      case EnterLoop(u, expired) =>
        HeldAnswer(s, u);
        TopSettles(s, u, expired);
      case WakeRead(u, timedOut, expired) =>
        HeldAnswer(s, u);
        TopSettles(s, u, expired);
        FinishSettles(s, u);
      case ReadEnd(u, ok, expired) =>
        HeldAnswer(s, u);
        EndReadLive(s, u, ok);
        ReadSame(s.responses, s.threads[u], Loop);
        TopSettles(EndRead(s, u, ok), u, expired);
      case _ =>
    }
  }

  lemma EndReadLive(s: State, t: nat, ok: bool)
    requires t < |s.threads|
    ensures var r := EndRead(s, t, ok);
      && r.threads[t] == s.threads[t].(pc := Loop) && r.pending == s.pending && r.responses == s.responses
      && (forall u :: 0 <= u < |s.threads| && u != t && !s.threads[u].pc.Over? ==> !r.threads[u].pc.Over?)
  {
  }

  /**
   * From every reachable state: a call returns only at its own turn, and then
   * it returns the first response of its id read since it began if there is
   * one, and otherwise BUSY or TIMEOUT as its write was not, or was, begun.
   */
  lemma ReturnsExactly(s: State, step: Step, t: nat)
    requires Reachable(s) && Enabled(s, step) && Shaped(s) && t < |s.threads| && !s.threads[t].pc.Over?
    ensures t < |Next(s, step).threads|
    ensures var n := Next(s, step); n.threads[t].pc.Over? ==> OwnTurn(step, t) && Settled(n.threads[t], n.responses)
  {
    hide Reachable, FirstAnswer, Top, Finish, Settled, Read, Ready;
    if !OwnTurn(step, t) {
      OthersLive(s, step, t);
    } else {
      HeldAnswer(s, t);
      match step {
        case EnterLoop(_, expired) => TopSettles(s, t, expired);
        case WakeRead(_, timedOut, expired) =>
          TopSettles(s, t, expired);
          FinishSettles(s, t);
          FinishKeeps(s, t);
        case ReadEnd(_, ok, expired) =>
          EndReadLive(s, t, ok);
          ReadSame(s.responses, s.threads[t], Loop);
          TopSettles(EndRead(s, t, ok), t, expired);
      }
    }
  }

  lemma ReadSame(responses: seq<Frame>, th: Thread, pc: Pc)
    ensures Read(responses, th.(pc := pc)) <==> Read(responses, th)
  {
  }

  /** A call whose answer has been read, whose write failed or whose time is up returns at its next turn, and no other does. */
  lemma ReturnsWhen(s: State, step: Step, t: nat)
    requires Reachable(s) && Enabled(s, step) && Shaped(s) && OwnTurn(step, t) && t < |s.threads|
    ensures !s.threads[t].pc.Over? && t < |Next(s, step).threads|
    ensures var n := Next(s, step);
      n.threads[t].pc.Over? <==>
        || !s.threads[t].sent || Read(s.responses, s.threads[t]) || n.broken
        || (match step
            case EnterLoop(_, expired) => expired
            case WakeRead(_, timedOut, expired) => timedOut || expired
            case ReadEnd(_, _, expired) => expired)
  {
    hide Reachable, FirstAnswer, Top, Finish, Settled, Read, Ready;
    HeldAnswer(s, t);
    match step {
      case EnterLoop(_, expired) =>
        TopSettles(s, t, expired);
        TopBroken(s, t, expired);
      case WakeRead(_, timedOut, expired) =>
        TopSettles(s, t, expired);
        TopBroken(s, t, expired);
        FinishSettles(s, t);
      case ReadEnd(_, ok, expired) =>
        EndReadLive(s, t, ok);
        ReadSame(s.responses, s.threads[t], Loop);
        TopSettles(EndRead(s, t, ok), t, expired);
        TopBroken(EndRead(s, t, ok), t, expired);
    }
  }

  lemma TopBroken(s: State, t: nat, expired: bool)
    requires t < |s.threads| && s.threads[t].slot < |s.pending|
    ensures Top(s, t, expired).broken == s.broken
  {
  }

  lemma {:induction false} NoneVacant(pending: seq<Slot>, i: nat)
    requires i <= |pending|
    ensures FirstVacant(pending, i) == |pending| <==> forall j :: i <= j < |pending| ==> pending[j].Taken?
    decreases |pending| - i
  {
    if i < |pending| && pending[i].Taken? {
      NoneVacant(pending, i + 1);
    }
  }

  /**
   * A call is refused with UNAVAILABLE exactly on a broken channel, with BUSY
   * exactly when it is whole and every slot is taken, and is otherwise live
   * under an id no call has had, with no response of that id read before.
   */
  lemma BeginsExactly(s: State, frame: Frame)
    requires Reachable(s) && Enabled(s, Begin(frame)) && Shaped(s)
    ensures var n := Next(s, Begin(frame)); var t := |s.threads|;
      && n.threads == s.threads + [n.threads[t]] && n.responses == s.responses
      && var th := n.threads[t];
         && (th.pc == Over(Unavailable) <==> s.broken)
         && (th.pc == Over(Busy) <==> !s.broken && forall i :: 0 <= i < |s.pending| ==> s.pending[i].Taken?)
         && (th.pc == Packed <==> !s.broken && exists i :: 0 <= i < |s.pending| && s.pending[i].Vacant?)
         && (th.pc == Packed ==>
               && th.frame == frame.(requestId := th.id) && th.id >= 1
               && (forall u :: 0 <= u < t ==> s.threads[u].id != th.id) && !Read(s.responses, th))
  {
    hide Reachable, PackAll, Pack, Needed, OutputOk, InputOk;
    ReachableSound(s);
    NoneVacant(s.pending, 0);
    forall u | 0 <= u < |s.threads|
      ensures s.threads[u].id < s.nextId
    {
      assert ThreadOk(s, u);
    }
  }

  // ----- turns that do not return ------------------------------------------------------------

  /** What becomes of a call that asks to write: it waits for the writer at work, becomes it, or goes on without having written. */
  ghost predicate AsksToWrite(s: State, n: State, t: nat, inTime: bool)
    requires t < |s.threads| && t < |n.threads|
  {
    var th := n.threads[t];
    if s.writing.Some? && !s.broken then th == s.threads[t].(pc := WaitWrite(false)) && n.writing == s.writing && n.begun == s.begun
    else if s.broken || !inTime then th == s.threads[t].(pc := Loop, sent := false) && n.writing == s.writing && n.begun == s.begun
    else th == s.threads[t].(pc := Writing, sent := true, attempted := true)
         && n.writing == Some(t) && n.begun == Some(Begun(s.threads[t].frame, 0))
  }

  /** A call that has packed its frame, or wakes from waiting to write, either way. */
  lemma WritesExactly(s: State, step: Step)
    requires Enabled(s, step) && Shaped(s)
    ensures step.TryWrite? ==> AsksToWrite(s, Next(s, step), step.t, step.inTime)
    ensures step.WakeWrite? && !step.timedOut ==> AsksToWrite(s, Next(s, step), step.t, step.inTime)
    ensures step.WakeWrite? && step.timedOut && s.writing.Some? ==>
      Next(s, step).threads[step.t] == s.threads[step.t].(pc := Loop, sent := false)
  {
    hide FirstVacant, Match, Pack, Needed, Spelled;
  }

  /** A turn that does not return makes the call the reader if there is none, and otherwise has it wait for the one at work. */
  lemma ReadsExactly(s: State, step: Step, t: nat)
    requires Reachable(s) && Enabled(s, step) && Shaped(s) && OwnTurn(step, t) && t < |s.threads|
    ensures t < |Next(s, step).threads|
    ensures var n := Next(s, step);
      n.threads[t].pc.Over?
      || (n.threads[t].pc == Reading && n.reading == Some(t) && (step.ReadEnd? || s.reading.None?))
      || (n.threads[t].pc == WaitRead(false) && n.reading == s.reading && s.reading.Some? && !step.ReadEnd?)
  {
    hide Reachable, Pack, Needed, Broadcast, Outcome, Match, Ready;
    HeldAnswer(s, t);
    if step.ReadEnd? {
      EndReadLive(s, t, step.ok);
    }
  }

  // ----- slots are given back --------------------------------------------------------------------

  /** A live call has the slot. */
  ghost predicate Has(s: State, k: nat, id: nat) {
    exists t :: 0 <= t < |s.threads| && !s.threads[t].pc.Over? && s.threads[t].slot == k && s.threads[t].id == id
  }

  /** Every slot in use is a live call's. */
  ghost predicate NoLeak(s: State) {
    forall k :: 0 <= k < |s.pending| && s.pending[k].Taken? ==> Has(s, k, s.pending[k].id)
  }

  /** Slots and ids stay, and no other call returns. */
  ghost predicate KeepsCalls(s: State, r: State) {
    && |s.threads| <= |r.threads|
    && (forall t :: 0 <= t < |s.threads| && !s.threads[t].pc.Over? ==>
          !r.threads[t].pc.Over? && r.threads[t].slot == s.threads[t].slot && r.threads[t].id == s.threads[t].id)
  }

  lemma KeptHas(s: State, r: State, k: nat, id: nat)
    requires Has(s, k, id) && KeepsCalls(s, r)
    ensures Has(r, k, id)
  {
    var t :| 0 <= t < |s.threads| && !s.threads[t].pc.Over? && s.threads[t].slot == k && s.threads[t].id == id;
    assert !r.threads[t].pc.Over? && r.threads[t].slot == k && r.threads[t].id == id;
  }

  lemma KeptLeak(s: State, r: State)
    requires NoLeak(s) && KeepsCalls(s, r) && |r.pending| == |s.pending|
    requires forall k :: 0 <= k < |r.pending| && r.pending[k].Taken? ==> s.pending[k].Taken? && s.pending[k].id == r.pending[k].id
    ensures NoLeak(r)
  {
    hide Has;
    forall k | 0 <= k < |r.pending| && r.pending[k].Taken?
      ensures Has(r, k, r.pending[k].id)
    {
      KeptHas(s, r, k, r.pending[k].id);
    }
  }

  lemma FinishLeak(s: State, t: nat)
    requires NoLeak(s) && t < |s.threads| && s.threads[t].slot < |s.pending|
    ensures NoLeak(Finish(s, t))
  {
    hide Outcome;
    var r := Finish(s, t);
    forall k | 0 <= k < |r.pending| && r.pending[k].Taken?
      ensures Has(r, k, r.pending[k].id)
    {
      assert k != s.threads[t].slot && Has(s, k, s.pending[k].id);
      var u :| 0 <= u < |s.threads| && !s.threads[u].pc.Over? && s.threads[u].slot == k && s.threads[u].id == s.pending[k].id;
      assert !r.threads[u].pc.Over? && r.threads[u].slot == k && r.threads[u].id == r.pending[k].id;
    }
  }

  lemma TopLeak(s: State, t: nat, expired: bool)
    requires NoLeak(s) && t < |s.threads| && s.threads[t].slot < |s.pending| && !s.threads[t].pc.Over?
    ensures NoLeak(Top(s, t, expired))
  {
    hide Finish, Has;
    FinishLeak(s, t);
    var r := Top(s, t, expired);
    if r != Finish(s, t) {
      KeptLeak(s, r);
    }
  }

  lemma BeginLeak(s: State, frame: Frame)
    requires NoLeak(s) && s.nextId < IDS
    ensures NoLeak(BeginCall(s, frame))
  {
    hide Has;
    var r := BeginCall(s, frame);
    forall k | 0 <= k < |r.pending| && r.pending[k].Taken?
      ensures Has(r, k, r.pending[k].id)
    {
      if r.pending[k] == s.pending[k] {
        KeptHas(s, r, k, s.pending[k].id);
      } else {
        NewHas(r, k);
      }
    }
  }

  lemma NewHas(r: State, k: nat)
    requires k < |r.pending| && r.pending[k].Taken? && r.threads != []
    requires var th := r.threads[|r.threads| - 1]; !th.pc.Over? && th.slot == k && th.id == r.pending[k].id
    ensures Has(r, k, r.pending[k].id)
  {
    assert !r.threads[|r.threads| - 1].pc.Over?;
  }

  lemma NextLeak(s: State, step: Step)
    requires Sound(s) && NoLeak(s) && Enabled(s, step)
    ensures Shaped(s) && NoLeak(Next(s, step))
  {
    hide Sound, NoLeak, Has, FirstVacant, Match, Pack, Needed, Spelled, Top, Finish, Ready, BeginCall, EndRead, Broadcast;
    SoundShaped(s);
    match step {
      case Begin(frame) => BeginLeak(s, frame);
      case EnterLoop(t, expired) => TopLeak(s, t, expired);
      case WakeRead(t, timedOut, expired) =>
        FinishLeak(s, t);
        TopLeak(s, t, expired);
      case ReadEnd(t, ok, expired) =>
        EndReadKeeps(s, t, ok);
        KeptLeak(s, EndRead(s, t, ok));
        TopLeak(EndRead(s, t, ok), t, expired);
      case _ =>
        OtherKeeps(s, step);
        KeptLeak(s, Next(s, step));
    }
  }

  lemma EndReadKeeps(s: State, t: nat, ok: bool)
    requires t < |s.threads| && !s.threads[t].pc.Over?
    ensures var r := EndRead(s, t, ok); KeepsCalls(s, r) && r.pending == s.pending && r.threads[t] == s.threads[t].(pc := Loop)
  {
  }

  lemma OtherKeeps(s: State, step: Step)
    requires Shaped(s) && Enabled(s, step) && !step.Begin? && !step.EnterLoop? && !step.WakeRead? && !step.ReadEnd?
    ensures var r := Next(s, step); KeepsCalls(s, r) && |r.pending| == |s.pending|
    ensures forall k :: 0 <= k < |s.pending| && Next(s, step).pending[k].Taken? ==>
      s.pending[k].Taken? && s.pending[k].id == Next(s, step).pending[k].id
  {
    hide FirstVacant, Match, Pack, Needed, Spelled, Top, Finish;
  }

  lemma {:induction false} RunLeak(s: State, steps: seq<Step>, last: State)
    requires Sound(s) && NoLeak(s) && Runs(s, steps, last)
    ensures NoLeak(last)
    decreases |steps|
  {
    hide Sound, NoLeak, Enabled, Next, Shaped;
    if steps != [] {
      NextLeak(s, steps[0]);
      NextSound(s, steps[0]);
      RunLeak(Next(s, steps[0]), steps[1..], last);
    }
  }

  /** Over every interleaving a slot in use is a live call's, under that call's id: what a call took it gave back when it returned. */
  lemma SlotsGivenBack(s: State, k: nat)
    requires Reachable(s) && k < |s.pending| && s.pending[k].Taken?
    ensures exists t :: 0 <= t < |s.threads| && !s.threads[t].pc.Over? && s.threads[t].slot == k && s.threads[t].id == s.pending[k].id
  {
    hide Runs, Sound;
    var steps :| Runs(Start(), steps, s);
    StartSound();
    RunLeak(Start(), steps, s);
    assert Has(s, k, s.pending[k].id);
  }

  // ----- a call that is answered --------------------------------------------------------------

  /** A frame read_one accepts for whoever asked with an ordinary operation. */
  predicate Plain(f: Frame) {
    Packable(f) && f.magic == MAGIC && f.major == MAJOR && f.minor == MINOR && f.flags == 0 && 8 <= |f.payload| <= MAX_TEXT_BYTES + 8
  }

  /** The steps of one call alone: write the frame whole, read one response. */
  function Alone(request: Frame, response: Frame): (steps: seq<Step>)
    requires Packable(request) && Packable(response)
  {
    [Begin(request), TryWrite(0, true), Put(0, |Pack(request.(requestId := 1))|), WriteEnd(0), EnterLoop(0, false),
     Receive(0, Pack(response)[..HEADER_SIZE]), Receive(0, Pack(response)[HEADER_SIZE..]), Deliver(0), ReadEnd(0, true, false)]
  }

  lemma RunsMore(s: State, step: Step, steps: seq<Step>, last: State)
    requires Enabled(s, step) && Shaped(s) && Runs(Next(s, step), steps, last)
    ensures Runs(s, [step] + steps, last)
  {
    hide Enabled, Next, Shaped;
    assert ([step] + steps)[1..] == steps;
  }

  /** The call under way: its slot, its frame, and how far it has come. */
  function Solo(request: Frame, pc: Pc, done: Option<Reply>, sent: bool): (s: State)
    requires Packable(request)
  {
    var f := request.(requestId := 1);
    Start().(pending := Start().pending[0 := Taken(1, request.opcode, done)], nextId := 2,
             threads := [Thread(pc, 0, 1, f, 0, sent, sent)])
  }

  lemma Begun1(request: Frame)
    requires Packable(request)
    ensures Enabled(Start(), Begin(request)) && Shaped(Start())
    ensures Next(Start(), Begin(request)) == Solo(request, Packed, None, false)
  {
    hide Pack;
    assert FirstVacant(Start().pending, 0) == 0;
  }

  function Writer(request: Frame, size: nat): (s: State)
    requires Packable(request) && size <= |Pack(request.(requestId := 1))|
  {
    var f := request.(requestId := 1);
    Solo(request, Writing, None, true).(writing := Some(0), begun := Some(Begun(f, size)), out := Pack(f)[..size])
  }

  lemma Wrote(request: Frame)
    requires Packable(request)
    ensures var n := |Pack(request.(requestId := 1))|; var s := Solo(request, Packed, None, false);
      && Enabled(s, TryWrite(0, true)) && Shaped(s) && Next(s, TryWrite(0, true)) == Writer(request, 0)
      && Enabled(Writer(request, 0), Put(0, n)) && Shaped(Writer(request, 0))
      && Next(Writer(request, 0), Put(0, n)) == Writer(request, n)
  {
    hide Pack;
    var f := request.(requestId := 1);
    assert Pack(f)[..0] == [] && [] + Pack(f)[0..|Pack(f)|] == Pack(f)[..|Pack(f)|];
  }

  /** Behind the write, with part of a response read. */
  function Reader(request: Frame, pc: Pc, rest: seq<byte>): (s: State)
    requires Packable(request)
  {
    var f := request.(requestId := 1);
    Solo(request, pc, None, true).(out := Pack(f), written := [f], consumed := rest, rest := rest,
                                   reading := if pc == Reading then Some(0) else None)
  }

  lemma Reads(request: Frame)
    requires Packable(request)
    ensures var n := |Pack(request.(requestId := 1))|; var w := Writer(request, n);
      && Enabled(w, WriteEnd(0)) && Shaped(w) && Next(w, WriteEnd(0)) == Reader(request, Loop, [])
      && Enabled(Reader(request, Loop, []), EnterLoop(0, false)) && Shaped(Reader(request, Loop, []))
      && Next(Reader(request, Loop, []), EnterLoop(0, false)) == Reader(request, Reading, [])
  {
    hide Pack;
    var f := request.(requestId := 1);
    assert Pack(f)[..|Pack(f)|] == Pack(f) && [] + [f] == [f];
  }

  /** Alone with one response read, and not given back. */
  function Holder(request: Frame, response: Frame): (s: State)
    requires Packable(request) && Packable(response)
  {
    var f := request.(requestId := 1);
    Solo(request, Delivered, Some(Reply(0, response)), true)
      .(out := Pack(f), written := [f], consumed := Pack(response), responses := [response], reading := Some(0))
  }

  lemma HeaderGood(response: Frame)
    requires Plain(response)
    ensures var b := Pack(response);
      && |b| == HEADER_SIZE + |response.payload| && |b| == Needed(b) && GoodHeader(b) && Spelled(b) == response
      && GoodHeader(b[..HEADER_SIZE]) && Needed(b[..HEADER_SIZE]) == |b|
  {
    hide Pack;
    PackSpelled(response);
    HeaderAlone(Pack(response));
  }

  lemma HeaderAlone(b: seq<byte>)
    requires |b| >= HEADER_SIZE && GoodHeader(b)
    ensures GoodHeader(b[..HEADER_SIZE]) && LengthField(b[..HEADER_SIZE]) == LengthField(b)
  {
    hide FromLe32, FromLe64, FromLe16;
    var h := b[..HEADER_SIZE];
    assert h[..4] == b[..4] && h[4..6] == b[4..6] && h[6..8] == b[6..8] && h[10..12] == b[10..12] && h[12..16] == b[12..16];
  }

  lemma Received(request: Frame, response: Frame)
    requires Packable(request) && Plain(response)
    ensures var b := Pack(response); var r, h, w := Reader(request, Reading, []), b[..HEADER_SIZE], Reader(request, Reading, b);
      && Enabled(r, Receive(0, h)) && Shaped(r) && Next(r, Receive(0, h)) == Reader(request, Reading, h)
      && Enabled(Reader(request, Reading, h), Receive(0, b[HEADER_SIZE..])) && Shaped(Reader(request, Reading, h))
      && Next(Reader(request, Reading, h), Receive(0, b[HEADER_SIZE..])) == w && Shaped(w)
  {
    hide Pack, GoodHeader;
    HeaderGood(response);
    var b := Pack(response);
    assert [] + b[..HEADER_SIZE] == b[..HEADER_SIZE] && b[..HEADER_SIZE] + b[HEADER_SIZE..] == b;
  }

  lemma Handed(request: Frame, response: Frame)
    requires Packable(request) && Plain(response) && response.requestId == 1
    ensures var w := Reader(request, Reading, Pack(response));
      Enabled(w, Deliver(0)) && Shaped(w) && Next(w, Deliver(0)) == Holder(request, response)
  {
    hide Pack, GoodHeader, Spelled;
    HeaderGood(response);
    var w := Reader(request, Reading, Pack(response));
    assert Match(w.pending, 1, 0) == 0;
    assert [] + [response] == [response];
  }

  lemma GivenBack(request: Frame, response: Frame)
    requires Packable(request) && Plain(response)
    ensures var h := Holder(request, response);
      && Enabled(h, ReadEnd(0, true, false)) && Shaped(h)
      && Next(h, ReadEnd(0, true, false)).threads[0].pc == Over(Answered(Reply(0, response)))
      && |Next(h, ReadEnd(0, true, false)).threads| == 1
  {
    hide Pack;
  }

  /** Any request, alone on a whole channel, with any plain response of its id: the run exists, and the call returns the response. */
  lemma CallAnswered(request: Frame, response: Frame) returns (last: State)
    requires Packable(request) && Plain(response) && response.requestId == 1
    ensures Runs(Start(), Alone(request, response), last)
    ensures |last.threads| == 1 && last.threads[0].pc == Over(Answered(Reply(0, response)))
  {
    hide Next, Enabled, Shaped, Runs, Pack, Solo, Writer, Reader, Holder;
    var b, n := Pack(response), |Pack(request.(requestId := 1))|;
    Begun1(request);
    Wrote(request);
    Reads(request);
    Received(request, response);
    Handed(request, response);
    GivenBack(request, response);
    var h := Holder(request, response);
    last := Next(h, ReadEnd(0, true, false));
    RunsNone(last);
    RunsMore(h, ReadEnd(0, true, false), [], last);
    RunsMore(Reader(request, Reading, b), Deliver(0), [ReadEnd(0, true, false)] + [], last);
    RunsMore(Reader(request, Reading, b[..HEADER_SIZE]), Receive(0, b[HEADER_SIZE..]), [Deliver(0)] + ([ReadEnd(0, true, false)] + []), last);
    var end := [Receive(0, b[HEADER_SIZE..])] + ([Deliver(0)] + ([ReadEnd(0, true, false)] + []));
    RunsMore(Reader(request, Reading, []), Receive(0, b[..HEADER_SIZE]), end, last);
    RunsMore(Reader(request, Loop, []), EnterLoop(0, false), [Receive(0, b[..HEADER_SIZE])] + end, last);
    var middle := [EnterLoop(0, false)] + ([Receive(0, b[..HEADER_SIZE])] + end);
    RunsMore(Writer(request, n), WriteEnd(0), middle, last);
    RunsMore(Writer(request, 0), Put(0, n), [WriteEnd(0)] + middle, last);
    RunsMore(Solo(request, Packed, None, false), TryWrite(0, true), [Put(0, n)] + ([WriteEnd(0)] + middle), last);
    RunsMore(Start(), Begin(request), [TryWrite(0, true)] + ([Put(0, n)] + ([WriteEnd(0)] + middle)), last);
    assert [Begin(request)] + ([TryWrite(0, true)] + ([Put(0, n)] + ([WriteEnd(0)] + middle))) == Alone(request, response);
  }

  lemma RunsNone(s: State)
    ensures Runs(s, [], s)
  {
  }
}

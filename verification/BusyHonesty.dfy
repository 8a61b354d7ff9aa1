module BusyHonesty {

  // Authority, relay and session daemon joined by their socket: what the one sends the other receives, at any pace.

  import opened Bytes
  import opened Frames
  import Relay
  import Bus
  import JobQueue
  import Response
  import Numerals
  import Envelope
  import Budget

  /** One request of a process: refused by the authority, or a thread in the relay. */
  datatype Caller = Caller(pid: u64, thread: Option<nat>)

  /** Both ends of the socket, the authority's count of requests under way, and everyone who has asked. */
  datatype Channel = Channel(relay: Relay.State, bus: Bus.BusState, quota: Budget.Quota, callers: seq<Caller>)

  function Start(generation: seq<byte>, translate: (u16, seq<byte>) -> Option<seq<byte>>): (c: Channel) {
    Channel(Relay.Start(), Bus.Start(generation, translate), Budget.Quota(0, Budget.EmptyTable(), []), [])
  }

  /** relay_answer: the frame an answer travels in. */
  function AnswerFrame(a: Bus.Answered): (f: Frame) {
    Frame(MAGIC, MAJOR, MINOR, 0, 0, a.requestId, Response.Words(a.status, 0) + a.body)
  }

  function AnswerFrames(answers: seq<Bus.Answered>): (fs: seq<Frame>)
    ensures |fs| == |answers|
  {
    seq(|answers|, k requires 0 <= k < |answers| => AnswerFrame(answers[k]))
  }

  predicate Short(answers: seq<Bus.Answered>) {
    forall k :: 0 <= k < |answers| ==> |answers[k].body| <= MAX_TEXT_BYTES + 4
  }

  lemma ShortPackable(answers: seq<Bus.Answered>)
    requires Short(answers)
    ensures AllPackable(AnswerFrames(answers))
  {
  }

  function Sent(c: Channel): (fs: seq<Frame>) {
    CutStream(c.relay.out).frames
  }

  // ----- steps of the pair -------------------------------------------------------------

  datatype Step =
    | Ask(pid: u64, frame: Frame)    // reserve_kwin_slot, then the call
    | Return(k: nat)                 // release_kwin_slot, by a holder
    | RelayStep(step: Relay.Step)
    | Request(now: nat)
    | Script(callback: Bus.Callback)

  ghost predicate Enabled(c: Channel, step: Step) {
    match step
    case Ask(_, frame) => Relay.Enabled(c.relay, Relay.Begin(frame))
    case Return(k) => k < |c.quota.holders|
    case RelayStep(r) =>
      // bytes are received only if the daemon has sent them
      && !r.Begin? && Relay.Enabled(c.relay, r)
      && (r.Receive? ==>
            Short(c.bus.answers)
            && (ShortPackable(c.bus.answers); c.relay.consumed + r.bytes <= PackAll(AnswerFrames(c.bus.answers))))
    case Request(_) =>
      // the next request is whole only if the relay has sent all of it
      |c.bus.requests| < |Sent(c)| && |c.bus.requests| + 2 < JobQueue.SEQUENCES
    case Script(callback) => !callback.Readable? && |c.bus.requests| + 1 < JobQueue.SEQUENCES
  }

  ghost function Next(c: Channel, step: Step): (r: Channel)
    requires Enabled(c, step) && Relay.Shaped(c.relay)
  {
    match step
    case Ask(pid, frame) =>
      var (quota, ok) := Budget.Reserve(Budget.KWIN, c.quota, pid);
      if !ok then c.(callers := c.callers + [Caller(pid, None)])
      else c.(quota := quota, relay := Relay.Next(c.relay, Relay.Begin(frame)),
              callers := c.callers + [Caller(pid, Some(|c.relay.threads|))])
    case Return(k) => c.(quota := Budget.Release(Budget.KWIN, c.quota, k))
    case RelayStep(r) => c.(relay := Relay.Next(c.relay, r))
    case Request(now) =>
      var f := Sent(c)[|c.bus.requests|];
      c.(bus := Bus.Next(c.bus, Bus.Readable(f.requestId, f.opcode, f.payload, now)))
    case Script(callback) => c.(bus := Bus.Next(c.bus, callback))
  }

  // ----- what holds in every reachable state -----------------------------------------------

  /** A request as the daemon keeps it, and the frame it came in. */
  predicate Received(a: Bus.Asked, f: Frame) {
    a.id == f.requestId && a.opcode == f.opcode && a.payload == f.payload
  }

  /** The daemon has received the first of the relay's requests, the relay the first of its answers. */
  ghost predicate Joined(c: Channel) {
    && |c.bus.requests| <= |Sent(c)|
    && (forall k :: 0 <= k < |c.bus.requests| ==> Received(c.bus.requests[k], Sent(c)[k]))
    && Short(c.bus.answers)
    && (ShortPackable(c.bus.answers); c.relay.consumed <= PackAll(AnswerFrames(c.bus.answers)))
  }

  ghost predicate Issued(s: Relay.State, id: nat) {
    exists t :: 0 <= t < |s.threads| && s.threads[t].id == id
  }

  ghost predicate Asked(callers: seq<Caller>, t: nat) {
    exists k :: 0 <= k < |callers| && callers[k].thread == Some(t)
  }

  /** Every id belongs to a thread, and every thread to one caller. */
  ghost predicate Traceable(c: Channel) {
    && (forall id :: 1 <= id < c.relay.nextId ==> Issued(c.relay, id))
    && (forall t :: 0 <= t < |c.relay.threads| ==> Asked(c.callers, t))
    && (forall k :: 0 <= k < |c.callers| && c.callers[k].thread.Some? ==> c.callers[k].thread.value < |c.relay.threads|)
    && (forall k, l :: 0 <= k < l < |c.callers| && c.callers[k].thread.Some? ==> c.callers[k].thread != c.callers[l].thread)
  }

  ghost predicate Sound(c: Channel) {
    Relay.Sound(c.relay) && Bus.Agreed(c.bus) && Joined(c) && Traceable(c) && Budget.QuotaSound(Budget.KWIN, c.quota)
  }

  lemma StartSound(generation: seq<byte>, translate: (u16, seq<byte>) -> Option<seq<byte>>)
    requires Numerals.IsHex(generation, Envelope.GENERATION_HEX)
    ensures Sound(Start(generation, translate))
  {
    hide Relay.Sound, Bus.Agreed, Numerals.IsHex, Budget.QuotaSound;
    Relay.StartSound();
    Bus.StartAgreed(generation, translate);
    Budget.QuotaStartSound(Budget.KWIN);
  }

  ghost predicate SameIds(a: seq<Relay.Thread>, b: seq<Relay.Thread>) {
    |a| == |b| && forall u :: 0 <= u < |a| ==> b[u].id == a[u].id
  }

  lemma BroadcastIds(threads: seq<Relay.Thread>)
    ensures SameIds(threads, Relay.Broadcast(threads))
  {
    hide Relay.Broadcast;
  }

  lemma TopIds(s: Relay.State, t: nat, expired: bool)
    requires t < |s.threads| && s.threads[t].slot < |s.pending|
    ensures SameIds(s.threads, Relay.Top(s, t, expired).threads) && Relay.Top(s, t, expired).nextId == s.nextId
    ensures SameIds(s.threads, Relay.Finish(s, t).threads) && Relay.Finish(s, t).nextId == s.nextId
  {
    hide Relay.Broadcast, Relay.Outcome;
    var th := s.threads[t];
    BroadcastIds(s.threads[t := th.(pc := Relay.Over(Relay.Outcome(th, s.pending[th.slot])))]);
  }

  lemma EndIds(s: Relay.State, t: nat, ok: bool)
    requires t < |s.threads|
    ensures SameIds(s.threads, Relay.EndRead(s, t, ok).threads) && Relay.EndRead(s, t, ok).nextId == s.nextId
    ensures Relay.EndRead(s, t, ok).threads[t].slot == s.threads[t].slot && Relay.EndRead(s, t, ok).pending == s.pending
    ensures s.begun.Some? && Packable(s.begun.value.frame) ==>
      SameIds(s.threads, Relay.EndWrite(s, t).threads) && Relay.EndWrite(s, t).nextId == s.nextId
  {
    hide Relay.Broadcast, Pack;
    BroadcastIds(s.threads[t := s.threads[t].(pc := Relay.Loop)]);
    Relay.EndReadLoop(s, t, ok);
    if s.begun.Some? && Packable(s.begun.value.frame) {
      BroadcastIds(s.threads[t := s.threads[t].(pc := Relay.Loop, sent := s.begun.value.size == |Pack(s.begun.value.frame)|)]);
    }
  }

  /** No step of the relay changes an id, and only a new call is given one. */
  lemma IdsKept(s: Relay.State, step: Relay.Step)
    requires Relay.Enabled(s, step) && Relay.Shaped(s)
    ensures var t := Relay.Next(s, step);
      && (!step.Begin? ==> SameIds(s.threads, t.threads) && t.nextId == s.nextId)
      && (step.Begin? ==>
            && |t.threads| == |s.threads| + 1 && SameIds(s.threads, t.threads[..|s.threads|])
            && (t.nextId == s.nextId || (t.nextId == s.nextId + 1 && t.threads[|s.threads|].id == s.nextId)))
  {
    hide Pack, Relay.FirstVacant, Relay.Match, Spelled, Needed, Relay.Top, Relay.Finish, Relay.EndRead, Relay.EndWrite, Relay.Broadcast;
    match step {
      case EnterLoop(t, expired) => TopIds(s, t, expired);
      case WakeRead(t, timedOut, expired) => TopIds(s, t, expired);
      case WriteEnd(t) => EndIds(s, t, true);
      case ReadEnd(t, ok, expired) =>
        EndIds(s, t, ok);
        TopIds(Relay.EndRead(s, t, ok), t, expired);
      case Retire => BroadcastIds(s.threads);
      case _ =>
    }
  }

  lemma RelayTraceable(c: Channel, step: Relay.Step)
    requires Traceable(c) && Relay.Enabled(c.relay, step) && Relay.Shaped(c.relay) && !step.Begin?
    ensures Traceable(c.(relay := Relay.Next(c.relay, step)))
  {
    hide Relay.Next, Relay.Enabled, Asked;
    IdsKept(c.relay, step);
    var t := Relay.Next(c.relay, step);
    forall id | 1 <= id < t.nextId
      ensures Issued(t, id)
    {
      assert Issued(c.relay, id);
      var u :| 0 <= u < |c.relay.threads| && c.relay.threads[u].id == id;
      assert t.threads[u].id == id;
    }
  }

  lemma AskTraceable(c: Channel, caller: Caller)
    requires Traceable(c) && (caller.thread.Some? ==> caller.thread.value == |c.relay.threads|)
    ensures forall t: nat :: Asked(c.callers + [caller], t) <==> Asked(c.callers, t) || caller.thread == Some(t)
    ensures var cs := c.callers + [caller];
      forall k, l :: 0 <= k < l < |cs| && cs[k].thread.Some? ==> cs[k].thread != cs[l].thread
  {
    var cs := c.callers + [caller];
    forall t: nat
      ensures Asked(cs, t) <==> Asked(c.callers, t) || caller.thread == Some(t)
    {
      if Asked(c.callers, t) {
        var k :| 0 <= k < |c.callers| && c.callers[k].thread == Some(t);
        assert cs[k].thread == Some(t);
      }
      if caller.thread == Some(t) {
        assert cs[|c.callers|].thread == Some(t);
      }
    }
  }

  lemma BegunTraceable(c: Channel, pid: u64, frame: Frame)
    requires Traceable(c) && Relay.Enabled(c.relay, Relay.Begin(frame)) && Relay.Shaped(c.relay)
    ensures Traceable(c.(relay := Relay.Next(c.relay, Relay.Begin(frame)),
                         callers := c.callers + [Caller(pid, Some(|c.relay.threads|))]))
  {
    hide Relay.Next, Relay.Enabled, Asked;
    var t := Relay.Next(c.relay, Relay.Begin(frame));
    IdsKept(c.relay, Relay.Begin(frame));
    AskTraceable(c, Caller(pid, Some(|c.relay.threads|)));
    forall id | 1 <= id < t.nextId
      ensures Issued(t, id)
    {
      if id < c.relay.nextId {
        assert Issued(c.relay, id);
        var u :| 0 <= u < |c.relay.threads| && c.relay.threads[u].id == id;
        assert t.threads[u] == t.threads[..|c.relay.threads|][u];
      } else {
        assert t.threads[|c.relay.threads|].id == id;
      }
    }
  }

  lemma TurnedAwayTraceable(c: Channel, pid: u64)
    requires Traceable(c)
    ensures Traceable(c.(callers := c.callers + [Caller(pid, None)]))
  {
    hide Asked;
    AskTraceable(c, Caller(pid, None));
  }

  /** A step of the relay only adds to what it has sent. */
  lemma OutGrows(s: Relay.State, step: Relay.Step)
    requires Relay.Enabled(s, step) && Relay.Shaped(s)
    ensures s.out <= Relay.Next(s, step).out
    ensures !step.Receive? ==> Relay.Next(s, step).consumed == s.consumed
  {
    hide Relay.Broadcast, Pack, Relay.FirstVacant, Relay.Match, Spelled, Needed, Relay.Outcome;
  }

  lemma SentGrows(a: seq<byte>, b: seq<byte>)
    requires a <= b
    ensures CutStream(a).frames <= CutStream(b).frames
  {
    hide CutStream;
    CutPrefix(a, b[|a|..]);
    assert a + b[|a|..] == b;
  }

  lemma RelayJoined(c: Channel, step: Relay.Step)
    requires Joined(c) && Relay.Enabled(c.relay, step) && Relay.Shaped(c.relay)
    requires step.Receive? ==>
      Short(c.bus.answers)
      && (ShortPackable(c.bus.answers); c.relay.consumed + step.bytes <= PackAll(AnswerFrames(c.bus.answers)))
    ensures Joined(c.(relay := Relay.Next(c.relay, step)))
  {
    hide CutStream, PackAll, AnswerFrames, Relay.Enabled, Short;
    var d := c.(relay := Relay.Next(c.relay, step));
    OutGrows(c.relay, step);
    SentGrows(c.relay.out, d.relay.out);
    if step.Receive? {
      assert d.relay.consumed == c.relay.consumed + step.bytes;
    }
  }

  lemma AnswersShort(b: Bus.BusState)
    requires Bus.Agreed(b)
    ensures Short(b.answers)
  {
    hide JobQueue.Sound, Bus.Matched, Bus.Linked, Bus.Served, Bus.Quiet, Bus.Delivered, Bus.Open;
  }

  /** A callback only adds to the daemon's answers, and only a request adds to its requests. */
  lemma BusGrows(b: Bus.BusState, c: Bus.Callback)
    ensures b.answers <= Bus.Next(b, c).answers
    ensures !c.Readable? ==> Bus.Next(b, c).requests == b.requests
  {
    hide JobQueue.Take, Bus.Reply1, JobQueue.Submit, Bus.RequestText, Bus.FreeSlot, JobQueue.LaneFor, Envelope.Parse, JobQueue.Report1, Bus.TakenUp;
    if c.ReportCall? {
      var (queue, ok) := JobQueue.Report1(b.queue, c.data);
      var applied := Bus.Called(b, None).(queue := queue, reports := Bus.TakenUp(b, c.data));
      Bus.DrainRequests(applied, 0);
      DrainGrows(applied, 0);
    }
  }

  lemma {:induction false} DrainGrows(b: Bus.BusState, i: nat)
    requires i <= |b.inflight|
    ensures b.answers <= Bus.Drain(b, i).answers
    decreases |b.inflight| - i
  {
    if i < |b.inflight| {
      DrainGrows(Bus.DrainOne(b, i), i + 1);
    }
  }

  lemma RequestGrows(b: Bus.BusState, requestId: u64, opcode: u16, payload: seq<byte>, now: nat)
    ensures var r := Bus.Next(b, Bus.Readable(requestId, opcode, payload, now));
      && |r.requests| == |b.requests| + 1 && r.requests[..|b.requests|] == b.requests
      && var a := r.requests[|b.requests|]; a.id == requestId && a.opcode == opcode && a.payload == payload
  {
    hide JobQueue.Take, Bus.Reply1, JobQueue.Submit, Bus.RequestText, Bus.FreeSlot, JobQueue.LaneFor;
  }

  lemma {:induction false} PackAllGrows(a: seq<Frame>, b: seq<Frame>)
    requires AllPackable(b) && a <= b
    ensures AllPackable(a) && PackAll(a) <= PackAll(b)
  {
    hide PackAll;
    assert b == a + b[|a|..];
    assert forall f :: f in a ==> f in b;
    assert forall f :: f in b[|a|..] ==> f in b;
    PackAllConcat(a, b[|a|..]);
  }

  lemma AnswersGrow(a: seq<Bus.Answered>, b: seq<Bus.Answered>)
    requires a <= b && Short(b)
    ensures Short(a) && (ShortPackable(a); ShortPackable(b); PackAll(AnswerFrames(a)) <= PackAll(AnswerFrames(b)))
  {
    hide PackAll, AnswerFrame;
    assert Short(a);
    ShortPackable(a);
    ShortPackable(b);
    PackAllGrows(AnswerFrames(a), AnswerFrames(b));
  }

  lemma BusJoined(c: Channel, callback: Bus.Callback)
    requires Sound(c) && Bus.Agreed(Bus.Next(c.bus, callback))
    requires callback.Readable? ==>
      && |c.bus.requests| < |Sent(c)|
      && var f := Sent(c)[|c.bus.requests|];
         callback.requestId == f.requestId && callback.opcode == f.opcode && callback.payload == f.payload
    ensures Joined(c.(bus := Bus.Next(c.bus, callback)))
  {
    hide Relay.Sound, Bus.Agreed, CutStream, PackAll, AnswerFrames, Bus.Next, Short;
    var d := c.(bus := Bus.Next(c.bus, callback));
    BusGrows(c.bus, callback);
    AnswersShort(d.bus);
    AnswersGrow(c.bus.answers, d.bus.answers);
    if callback.Readable? {
      RequestGrows(c.bus, callback.requestId, callback.opcode, callback.payload, callback.now);
      assert forall k :: 0 <= k < |c.bus.requests| ==> d.bus.requests[k] == d.bus.requests[..|c.bus.requests|][k];
    }
  }

  lemma AskSound(c: Channel, pid: u64, frame: Frame)
    requires Sound(c) && Enabled(c, Ask(pid, frame)) && Relay.Shaped(c.relay)
    ensures Sound(Next(c, Ask(pid, frame)))
  {
    hide Relay.Sound, Bus.Agreed, Joined, Relay.Next, Traceable, Relay.Enabled, Budget.QuotaSound, Budget.Reserve;
    Budget.ReserveSound(Budget.KWIN, c.quota, pid);
    var (quota, ok) := Budget.Reserve(Budget.KWIN, c.quota, pid);
    if ok {
      Relay.NextSound(c.relay, Relay.Begin(frame));
      RelayJoined(c, Relay.Begin(frame));
      BegunTraceable(c, pid, frame);
      JoinedSame(c.(relay := Relay.Next(c.relay, Relay.Begin(frame))), Next(c, Ask(pid, frame)));
      TraceableSame(c.(relay := Relay.Next(c.relay, Relay.Begin(frame)),
                       callers := c.callers + [Caller(pid, Some(|c.relay.threads|))]), Next(c, Ask(pid, frame)));
    } else {
      TurnedAwayTraceable(c, pid);
      JoinedSame(c, Next(c, Ask(pid, frame)));
    }
  }

  lemma JoinedSame(c: Channel, d: Channel)
    requires Joined(c) && d.relay == c.relay && d.bus == c.bus
    ensures Joined(d)
  {
    hide CutStream, PackAll, AnswerFrames, Short;
  }

  lemma TraceableSame(c: Channel, d: Channel)
    requires Traceable(c) && d.relay == c.relay && d.callers == c.callers
    ensures Traceable(d)
  {
    hide Asked, Issued;
  }

  lemma NextSound(c: Channel, step: Step)
    requires Sound(c) && Enabled(c, step) && Relay.Shaped(c.relay)
    ensures Sound(Next(c, step))
  {
    hide Relay.Sound, Bus.Agreed, Joined, Relay.Next, Bus.Next, CutStream, PackAll, AnswerFrames, Relay.Enabled;
    hide Traceable, Budget.QuotaSound, Budget.Reserve, Budget.Release, Short;
    match step {
      case Ask(pid, frame) => AskSound(c, pid, frame);
      case Return(k) =>
        Budget.ReleaseSound(Budget.KWIN, c.quota, k);
        JoinedSame(c, Next(c, step));
        TraceableSame(c, Next(c, step));
      case RelayStep(r) =>
        Relay.NextSound(c.relay, r);
        RelayJoined(c, r);
        RelayTraceable(c, r);
      case Request(now) =>
        var f := Sent(c)[|c.bus.requests|];
        var callback := Bus.Readable(f.requestId, f.opcode, f.payload, now);
        Bus.NextAgreed(c.bus, callback);
        BusJoined(c, callback);
        TraceableSame(c, Next(c, step));
      case Script(callback) =>
        Bus.NextAgreed(c.bus, callback);
        BusJoined(c, callback);
        TraceableSame(c, Next(c, step));
    }
  }

  ghost predicate Runs(c: Channel, steps: seq<Step>, last: Channel)
    decreases |steps|
  {
    if steps == [] then last == c
    else Enabled(c, steps[0]) && Relay.Shaped(c.relay) && Runs(Next(c, steps[0]), steps[1..], last)
  }

  lemma {:induction false} RunSound(c: Channel, steps: seq<Step>, last: Channel)
    requires Sound(c) && Runs(c, steps, last)
    ensures Sound(last)
    decreases |steps|
  {
    hide Sound, Enabled, Next;
    if steps != [] {
      NextSound(c, steps[0]);
      RunSound(Next(c, steps[0]), steps[1..], last);
    }
  }

  // ----- the promise ----------------------------------------------------------------------------

  /** The status a response frame carries. */
  function StatusOf(f: Frame): (status: u32)
    requires |f.payload| >= 8
  {
    FromLe32(f.payload[..4])
  }

  lemma ResponsesAreAnswers(c: Channel, k: nat)
    requires Sound(c) && k < |c.relay.responses|
    ensures k < |c.bus.answers| && c.relay.responses[k] == AnswerFrame(c.bus.answers[k])
  {
    hide Bus.Agreed, PackAll, AnswerFrame, Relay.AllOk, Relay.OutputOk, Relay.Distinct, CutStream, Sent;
    var answers := AnswerFrames(c.bus.answers);
    ShortPackable(c.bus.answers);
    assert PackAll(c.relay.responses) <= c.relay.consumed;
    FramesPrefix(c.relay.responses, PackAll(answers));
    PartialEmpty();
    CutOfPacked(answers, []);
    assert PackAll(answers) + [] == PackAll(answers);
  }

  lemma AnswerStatus(a: Bus.Answered)
    ensures |AnswerFrame(a).payload| >= 8 && StatusOf(AnswerFrame(a)) == a.status
  {
    Response.WordsRead(a.status, 0, a.body);
  }

  /** No two requests the relay has sent bear the same id, and each is of an attempted call. */
  lemma SentIds(c: Channel)
    requires Relay.Sound(c.relay)
    ensures forall k, l :: 0 <= k < l < |Sent(c)| ==> Sent(c)[k].requestId != Sent(c)[l].requestId
    ensures forall t, k ::
      0 <= t < |c.relay.threads| && 0 <= k < |Sent(c)| && c.relay.threads[t].id != 0 && !c.relay.threads[t].attempted ==>
        Sent(c)[k].requestId != c.relay.threads[t].id
  {
    hide PackAll, Pack, Needed, CutStream, Relay.InputOk, Relay.Holding, Relay.Concluded, Relay.Placed, Relay.Distinct;
    var s := c.relay;
    Relay.OutputCut(s);
    forall t, k | 0 <= t < |s.threads| && 0 <= k < |Sent(c)| && s.threads[t].id != 0 && !s.threads[t].attempted
      ensures Sent(c)[k].requestId != s.threads[t].id
    {
      assert Relay.ThreadOk(s, t);
    }
  }

  /** What a caller is told is BUSY: the relay's own refusal, or an answer that says so. */
  ghost predicate ToldBusy(s: Relay.State, t: nat)
    requires t < |s.threads|
  {
    var pc := s.threads[t].pc;
    pc.Over? && (pc.result.Busy?
      || (pc.result.Answered? && |pc.result.reply.frame.payload| >= 8
          && StatusOf(pc.result.reply.frame) == Bus.STATUS_BUSY))
  }

  /** The script reported the request with this serial number, with this status. */
  ghost predicate ScriptReported(b: Bus.BusState, serial: nat, status: u32) {
    exists k :: 0 <= k < |b.answers| && b.answers[k].serial == serial && b.answers[k].reported == Some(status)
  }

  /** What the caller is told: the authority's refusal to count one more, the relay's, or an answer that says so. */
  ghost predicate CallerToldBusy(c: Channel, k: nat)
    requires k < |c.callers|
  {
    var t := c.callers[k].thread;
    t.None? || (t.value < |c.relay.threads| && ToldBusy(c.relay, t.value))
  }

  /** The daemon's request with this serial number is the caller's. */
  ghost predicate Owns(c: Channel, k: nat, serial: nat)
    requires k < |c.callers| && serial < |c.bus.requests|
  {
    var t := c.callers[k].thread;
    t.Some? && t.value < |c.relay.threads| && c.relay.threads[t.value].id == c.bus.requests[serial].id
  }

  /**
   * BUSY is honest from end to end: a caller told BUSY, by whomever, can retry,
   * because its request never became a job, and so was in no poll reply, unless
   * the script itself reported BUSY for it.
   */
  lemma BusyIsHonest(generation: seq<byte>, translate: (u16, seq<byte>) -> Option<seq<byte>>, steps: seq<Step>,
                     c: Channel, k: nat, serial: nat)
    requires Numerals.IsHex(generation, Envelope.GENERATION_HEX)
    requires Runs(Start(generation, translate), steps, c)
    requires k < |c.callers| && CallerToldBusy(c, k)
    requires serial < |c.bus.requests| && Owns(c, k, serial)
    ensures c.bus.requests[serial].ticket.None? || ScriptReported(c.bus, serial, Bus.STATUS_BUSY)
  {
    hide Sound, Runs, CutStream, PackAll, Numerals.IsHex, ToldBusy;
    StartSound(generation, translate);
    RunSound(Start(generation, translate), steps, c);
    RequestId(c, serial);
    BusyNow(c, c.callers[k].thread.value, serial);
  }

  /** Every request the daemon has received is some caller's, and no one else's; one refused by the authority has none. */
  lemma EveryRequestOwned(generation: seq<byte>, translate: (u16, seq<byte>) -> Option<seq<byte>>, steps: seq<Step>,
                          c: Channel, serial: nat) returns (k: nat)
    requires Numerals.IsHex(generation, Envelope.GENERATION_HEX)
    requires Runs(Start(generation, translate), steps, c) && serial < |c.bus.requests|
    ensures k < |c.callers| && c.callers[k].thread.Some? && Owns(c, k, serial)
    ensures forall l :: 0 <= l < |c.callers| && l != k ==> !Owns(c, l, serial)
  {
    hide Runs, CutStream, PackAll, Numerals.IsHex, Relay.Sound, Bus.Agreed, Joined, Budget.QuotaSound;
    StartSound(generation, translate);
    RunSound(Start(generation, translate), steps, c);
    RequestId(c, serial);
    var id := c.bus.requests[serial].id;
    assert Issued(c.relay, id);
    var t :| 0 <= t < |c.relay.threads| && c.relay.threads[t].id == id;
    assert Asked(c.callers, t);
    k :| 0 <= k < |c.callers| && c.callers[k].thread == Some(t);
    forall l | 0 <= l < |c.callers| && l != k
      ensures !Owns(c, l, serial)
    {
      if Owns(c, l, serial) {
        OneThread(c.relay, t, c.callers[l].thread.value);
      }
    }
  }

  lemma OneThread(s: Relay.State, t: nat, u: nat)
    requires Relay.Sound(s) && t < |s.threads| && u < |s.threads| && s.threads[t].id == s.threads[u].id != 0
    ensures t == u
  {
    hide Relay.AllOk, Relay.OutputOk, Relay.InputOk;
  }

  /** A request the daemon has received bears an id the relay has issued. */
  lemma RequestId(c: Channel, serial: nat)
    requires Sound(c) && serial < |c.bus.requests|
    ensures 1 <= c.bus.requests[serial].id < c.relay.nextId
  {
    hide PackAll, Pack, Needed, CutStream, Relay.InputOk, Relay.AllOk, Relay.Distinct, Bus.Agreed, Traceable, Budget.QuotaSound, Short;
    Relay.OutputCut(c.relay);
    assert c.bus.requests[serial].id == Sent(c)[serial].requestId;
  }

  lemma BusyNow(c: Channel, t: nat, serial: nat)
    requires Sound(c) && t < |c.relay.threads| && ToldBusy(c.relay, t) && c.relay.threads[t].id != 0
    requires serial < |c.bus.requests| && c.bus.requests[serial].id == c.relay.threads[t].id
    ensures c.bus.requests[serial].ticket.None? || ScriptReported(c.bus, serial, Bus.STATUS_BUSY)
  {
    hide Relay.Sound, Bus.Agreed, CutStream, PackAll, AnswerFrames, AnswerFrame, StatusOf, Sent, Short;
    var th := c.relay.threads[t];
    SentIds(c);
    TheThread(c.relay, t);
    if th.pc.result.Answered? {
      var k := th.pc.result.reply.index;
      ResponsesAreAnswers(c, k);
      var a := c.bus.answers[k];
      AnswerStatus(a);
      TheAnswer(c.bus, k);
      AnswerId(a);
      assert a.serial == serial;
    }
  }

  lemma AnswerId(a: Bus.Answered)
    ensures AnswerFrame(a).requestId == a.requestId
  {
  }

  lemma TheThread(s: Relay.State, t: nat)
    requires Relay.Sound(s) && t < |s.threads| && s.threads[t].pc.Over?
    ensures s.threads[t].pc.result.Busy? ==> !s.threads[t].attempted
    ensures s.threads[t].pc.result.Answered? ==>
      var r := s.threads[t].pc.result.reply;
      r.index < |s.responses| && s.responses[r.index] == r.frame && r.frame.requestId == s.threads[t].id
  {
    hide Relay.InputOk, Relay.OutputOk, Relay.Distinct, Relay.Placed, Relay.Untouched;
    assert Relay.ThreadOk(s, t);
  }

  lemma TheAnswer(b: Bus.BusState, k: nat)
    requires Bus.Agreed(b) && k < |b.answers|
    ensures var a := b.answers[k];
      && a.serial < |b.requests| && b.requests[a.serial].id == a.requestId
      && (a.status == Bus.STATUS_BUSY && a.reported != Some(Bus.STATUS_BUSY) ==> b.requests[a.serial].ticket.None?)
  {
    hide JobQueue.Sound, Bus.Matched, Bus.Linked, Bus.Served, Bus.Quiet, Bus.Delivered, Bus.Open;
  }

  /** Every job in a poll reply is the job of one request, and of no other: without a ticket a request is in none. */
  lemma HandedOutIsAsked(b: Bus.BusState, k: nat) returns (q: nat)
    requires Bus.Agreed(b) && k < |Bus.Batches(b.spoken)|
    ensures q < |b.requests| && b.requests[q].ticket == Some(Bus.Batches(b.spoken)[k].ticket)
    ensures forall r :: 0 <= r < |b.requests| && r != q ==> b.requests[r].ticket != b.requests[q].ticket
  {
    hide Bus.Matched, Bus.Served, Bus.Quiet, Bus.Open, Bus.Honest, Bus.Batches, Bus.Tickets;
    hide JobQueue.Named, JobQueue.Traced, JobQueue.Unsent, JobQueue.Blank;
    var ticket := b.queue.sent[k].ticket;
    q := Bus.TicketAsked(b.requests, ticket - 1);
    forall r | 0 <= r < |b.requests| && r != q
      ensures b.requests[r].ticket != b.requests[q].ticket
    {
      if b.requests[r].ticket == b.requests[q].ticket {
        var i := Bus.AskedTicket(b.requests, r);
        var j := Bus.AskedTicket(b.requests, q);
        SamePlace(b.requests, r, q);
      }
    }
  }

  lemma SamePlace(requests: seq<Bus.Asked>, r: nat, q: nat)
    requires r < |requests| && q < |requests| && r != q
    requires requests[r].ticket.Some? && requests[q].ticket.Some?
    ensures |Bus.Tickets(requests[..r])| != |Bus.Tickets(requests[..q])|
  {
    if r < q {
      TicketsGrow(requests, r, q);
    } else {
      TicketsGrow(requests, q, r);
    }
  }

  lemma {:induction false} TicketsGrow(requests: seq<Bus.Asked>, r: nat, q: nat)
    requires r < q <= |requests| && requests[r].ticket.Some?
    ensures |Bus.Tickets(requests[..r])| < |Bus.Tickets(requests[..q])|
    decreases q
  {
    assert requests[..q][..q - 1] == requests[..q - 1];
    if r + 1 < q {
      TicketsGrow(requests, r, q - 1);
    }
  }
}

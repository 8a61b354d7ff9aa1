/** From the caller to the script and back: an answered call has what the script reported of its own request. */
module AnswerHonesty {
  import opened Bytes
  import opened Frames
  import Relay
  import Budget
  import Bus
  import BusHistory
  import BusyHonesty
  import Numerals
  import Envelope

  // ----- what was sent is what was asked ---------------------------------------------------

  /** A frame that bears a call's id is the call's own. */
  ghost predicate OwnFrame(s: Relay.State, f: Frame) {
    forall t :: 0 <= t < |s.threads| && s.threads[t].id == f.requestId ==> s.threads[t].frame == f
  }

  ghost predicate OwnFrames(s: Relay.State) {
    && (forall k :: 0 <= k < |s.written| ==> OwnFrame(s, s.written[k]))
    && (s.begun.Some? ==> OwnFrame(s, s.begun.value.frame))
  }

  /** Calls keep their ids and frames, whatever else becomes of them. */
  ghost predicate SameCalls(s: Relay.State, r: Relay.State) {
    && |s.threads| <= |r.threads|
    && (forall t :: 0 <= t < |s.threads| ==> r.threads[t].id == s.threads[t].id && r.threads[t].frame == s.threads[t].frame)
    && (forall t :: |s.threads| <= t < |r.threads| ==> r.threads[t].id == 0 || r.threads[t].id == s.nextId)
  }

  lemma WokenCall(th: Relay.Thread)
    ensures Relay.Woken(th).id == th.id && Relay.Woken(th).frame == th.frame
  {
  }

  /** Waking everyone, with one call moved on. */
  lemma BroadcastCalls(s: Relay.State, t: nat, th: Relay.Thread, r: Relay.State)
    requires t < |s.threads| && th.id == s.threads[t].id && th.frame == s.threads[t].frame
    requires r.threads == Relay.Broadcast(s.threads[t := th])
    ensures SameCalls(s, r)
  {
    hide Relay.Broadcast, Relay.Woken;
    forall u | 0 <= u < |s.threads|
      ensures r.threads[u].id == s.threads[u].id && r.threads[u].frame == s.threads[u].frame
    {
      WokenCall(s.threads[t := th][u]);
    }
  }

  lemma TopCalls(s: Relay.State, t: nat, expired: bool)
    requires t < |s.threads| && s.threads[t].slot < |s.pending|
    ensures SameCalls(s, Relay.Top(s, t, expired)) && SameCalls(s, Relay.Finish(s, t))
  {
    hide Relay.Outcome, Relay.Broadcast;
    var th := s.threads[t].(pc := Relay.Over(Relay.Outcome(s.threads[t], s.pending[s.threads[t].slot])));
    BroadcastCalls(s, t, th, Relay.Finish(s, t));
  }

  lemma NextCalls(s: Relay.State, step: Relay.Step)
    requires Relay.Enabled(s, step) && Relay.Shaped(s)
    ensures SameCalls(s, Relay.Next(s, step))
  {
    hide Relay.FirstVacant, Relay.Top, Relay.Finish, Relay.Match, Pack, Relay.Ready, Needed, Spelled, Relay.Broadcast;
    match step {
      case EnterLoop(t, expired) => TopCalls(s, t, expired);
      case WakeRead(t, timedOut, expired) => TopCalls(s, t, expired);
      case WriteEnd(t) =>
        var ok := s.begun.value.size == |Pack(s.begun.value.frame)|;
        BroadcastCalls(s, t, s.threads[t].(pc := Relay.Loop, sent := ok), Relay.Next(s, step));
      case ReadEnd(t, ok, expired) =>
        var u := Relay.EndRead(s, t, ok);
        BroadcastCalls(s, t, s.threads[t].(pc := Relay.Loop), u);
        Relay.EndReadLoop(s, t, ok);
        TopCalls(u, t, expired);
      case Retire =>
        forall u | 0 <= u < |s.threads|
          ensures Relay.Next(s, step).threads[u].id == s.threads[u].id && Relay.Next(s, step).threads[u].frame == s.threads[u].frame
        {
          WokenCall(s.threads[u]);
        }
      case _ =>
    }
  }

  lemma FrameKept(s: Relay.State, r: Relay.State, f: Frame)
    requires OwnFrame(s, f) && SameCalls(s, r) && 1 <= f.requestId < s.nextId
    ensures OwnFrame(r, f)
  {
  }

  lemma NextOwn(s: Relay.State, step: Relay.Step)
    requires Relay.Sound(s) && OwnFrames(s) && Relay.Enabled(s, step) && Relay.Shaped(s)
    ensures OwnFrames(Relay.Next(s, step))
  {
    hide Relay.Next, Relay.Enabled, OwnFrame, SameCalls, PackAll, Pack, Relay.InputOk, Relay.AllOk, Relay.Distinct;
    var r := Relay.Next(s, step);
    NextCalls(s, step);
    NextWritten(s, step);
    forall k | 0 <= k < |r.written|
      ensures OwnFrame(r, r.written[k])
    {
      if k < |s.written| {
        FrameKept(s, r, s.written[k]);
      } else {
        FrameKept(s, r, s.begun.value.frame);
      }
    }
    if r.begun.Some? {
      if s.begun.Some? && r.begun.value.frame == s.begun.value.frame {
        FrameKept(s, r, s.begun.value.frame);
      }
    }
  }

  /** What a step writes is what was begun, and what it begins is a call's own frame. */
  lemma NextWritten(s: Relay.State, step: Relay.Step)
    requires Relay.Sound(s) && Relay.Enabled(s, step) && Relay.Shaped(s)
    ensures var r := Relay.Next(s, step);
      && (r.written == s.written || (s.begun.Some? && r.written == s.written + [s.begun.value.frame]))
      && (r.begun.Some? ==> (s.begun.Some? && r.begun.value.frame == s.begun.value.frame) || OwnFrame(r, r.begun.value.frame))
  {
    hide Relay.Sound, Relay.FirstVacant, Relay.Outcome, Relay.Match, Pack, Relay.Ready, Needed, Spelled, Relay.Decide, OwnFrame, Relay.Broadcast;
    match step {
      case TryWrite(t, inTime) => DecideOwn(s, t, inTime);
      case WakeWrite(t, timedOut, inTime) => DecideOwn(s, t, inTime);
      case _ =>
    }
  }

  lemma DecideOwn(s: Relay.State, t: nat, inTime: bool)
    requires Relay.Sound(s) && t < |s.threads| && (s.threads[t].pc == Relay.Packed || s.threads[t].pc.WaitWrite?)
    ensures var r := Relay.Decide(s, t, inTime);
      && r.written == s.written
      && (r.begun == s.begun || (r.begun.Some? && OwnFrame(r, r.begun.value.frame)))
  {
    hide Relay.OutputOk, Relay.InputOk, PackAll, Pack, Relay.FirstAnswer;
    assert Relay.ThreadOk(s, t);
    var r := Relay.Decide(s, t, inTime);
    forall u | 0 <= u < |s.threads| && s.threads[u].id == s.threads[t].id
      ensures u == t
    {
      assert Relay.ThreadOk(s, u);
    }
  }

  // ----- over whole runs ----------------------------------------------------------------------

  ghost predicate Kept(c: BusyHonesty.Channel) {
    BusyHonesty.Sound(c) && OwnFrames(c.relay) && BusHistory.Recorded(c.bus)
  }

  lemma StartKept(generation: seq<byte>, translate: (u16, seq<byte>) -> Option<seq<byte>>)
    requires Numerals.IsHex(generation, Envelope.GENERATION_HEX)
    ensures Kept(BusyHonesty.Start(generation, translate))
  {
    hide BusyHonesty.Sound, BusHistory.Recorded, Numerals.IsHex;
    BusyHonesty.StartSound(generation, translate);
    BusHistory.StartRecorded(generation, translate);
  }

  lemma NextKept(c: BusyHonesty.Channel, step: BusyHonesty.Step)
    requires Kept(c) && BusyHonesty.Enabled(c, step) && Relay.Shaped(c.relay)
    ensures Kept(BusyHonesty.Next(c, step))
  {
    hide Relay.Sound, Bus.Agreed, BusyHonesty.Joined, BusyHonesty.Traceable, Relay.Next, Bus.Next, BusHistory.Recorded, OwnFrames;
    hide Budget.QuotaSound, Budget.Reserve, Budget.Release, Relay.Enabled, CutStream, PackAll, BusyHonesty.AnswerFrames, BusyHonesty.Short, BusyHonesty.Sent;
    BusyHonesty.NextSound(c, step);
    match step {
      case Ask(_, frame) => NextOwn(c.relay, Relay.Begin(frame));
      case RelayStep(r) => NextOwn(c.relay, r);
      case Request(now) =>
        var f := BusyHonesty.Sent(c)[|c.bus.requests|];
        BusHistory.NextRecorded(c.bus, Bus.Readable(f.requestId, f.opcode, f.payload, now));
      case Script(callback) => BusHistory.NextRecorded(c.bus, callback);
      case _ =>
    }
  }

  lemma {:induction false} RunKept(c: BusyHonesty.Channel, steps: seq<BusyHonesty.Step>, last: BusyHonesty.Channel)
    requires Kept(c) && BusyHonesty.Runs(c, steps, last)
    ensures Kept(last)
    decreases |steps|
  {
    hide Kept, BusyHonesty.Enabled, BusyHonesty.Next;
    if steps != [] {
      NextKept(c, steps[0]);
      RunKept(BusyHonesty.Next(c, steps[0]), steps[1..], last);
    }
  }

  /** The request the daemon received under a call's id is the one that call made. */
  lemma RequestIsCalls(c: BusyHonesty.Channel, t: nat, serial: nat)
    requires Kept(c) && t < |c.relay.threads| && serial < |c.bus.requests|
    requires c.bus.requests[serial].id == c.relay.threads[t].id
    ensures BusyHonesty.Received(c.bus.requests[serial], c.relay.threads[t].frame)
  {
    hide Relay.AllOk, Relay.InputOk, Relay.Distinct, Bus.Agreed, BusyHonesty.Traceable, Budget.QuotaSound, BusHistory.Recorded;
    hide CutStream, PackAll, Pack, BusyHonesty.AnswerFrames, BusyHonesty.Short;
    Relay.OutputCut(c.relay);
    assert OwnFrame(c.relay, BusyHonesty.Sent(c)[serial]);
  }

  /** The answer is the daemon's to the request the call made, and passes on what was reported of it. */
  ghost predicate AnswersCall(b: Bus.BusState, request: Frame, answer: Frame, a: Bus.Answered) {
    && a.serial < |b.requests| && BusyHonesty.Received(b.requests[a.serial], request)
    && answer.payload == Le32(a.status) + Le32(0) + a.body && answer.requestId == request.requestId
    && BusHistory.Told(b, a)
  }

  /**
   * End to end, over every run of authority, relay and daemon joined by their
   * socket: a call that is answered has the daemon's one answer to the operation
   * and payload it asked with, and that passes on the status and body the script
   * reported of the job it became, or refuses it without one.
   */
  lemma AnswerIsScripts(generation: seq<byte>, translate: (u16, seq<byte>) -> Option<seq<byte>>, steps: seq<BusyHonesty.Step>,
                        c: BusyHonesty.Channel, t: nat) returns (i: nat)
    requires Numerals.IsHex(generation, Envelope.GENERATION_HEX)
    requires BusyHonesty.Runs(BusyHonesty.Start(generation, translate), steps, c)
    requires t < |c.relay.threads| && c.relay.threads[t].pc.Over? && c.relay.threads[t].pc.result.Answered?
    ensures i < |c.bus.answers|
    ensures AnswersCall(c.bus, c.relay.threads[t].frame, c.relay.threads[t].pc.result.reply.frame, c.bus.answers[i])
  {
    hide Kept, BusyHonesty.Runs, Numerals.IsHex, AnswersCall;
    StartKept(generation, translate);
    RunKept(BusyHonesty.Start(generation, translate), steps, c);
    i := AnswerNow(c, t);
  }

  lemma AnswerNow(c: BusyHonesty.Channel, t: nat) returns (i: nat)
    requires Kept(c)
    requires t < |c.relay.threads| && c.relay.threads[t].pc.Over? && c.relay.threads[t].pc.result.Answered?
    ensures i < |c.bus.answers|
    ensures AnswersCall(c.bus, c.relay.threads[t].frame, c.relay.threads[t].pc.result.reply.frame, c.bus.answers[i])
  {
    hide Relay.Sound, Bus.Agreed, BusyHonesty.Joined, BusyHonesty.Traceable, Budget.QuotaSound, OwnFrames, BusHistory.Told;
    hide BusHistory.AllOwned, BusHistory.AllCarry, BusHistory.AllSaid, BusHistory.SaidOnce, BusHistory.Kinds, Le32;
    var reply := c.relay.threads[t].pc.result.reply;
    i := reply.index;
    BusyHonesty.TheThread(c.relay, t);
    BusyHonesty.ResponsesAreAnswers(c, i);
    var a := c.bus.answers[i];
    BusyHonesty.TheAnswer(c.bus, i);
    RequestIsCalls(c, t, a.serial);
  }
}

/**
 * The callbacks of the session daemon as they run: tables scanned and changed
 * in place.
 *
 * Each callback is proved equal to its step of the run model in Bus.
 */
module BusObject {
  import opened Bytes
  import opened Numerals
  import opened Envelope
  import opened JobQueue
  import opened Bus
  import opened WireBuffer
  import JobTable
  import EnvelopeText

  /** The parts of a batch as the serialiser takes them. */
  method Describe(batch: seq<Entry>, now: nat) returns (items: seq<Item>, bodies: seq<seq<byte>>)
    requires forall k :: 0 <= k < |batch| ==> |batch[k].body| < TEXT_CAPACITY
    ensures items == Items(batch, now) && bodies == Bodies(batch)
  {
    items, bodies := [], [];
    var k := 0;
    while k < |batch|
      invariant 0 <= k <= |batch|
      invariant items == Items(batch, now)[..k] && bodies == Bodies(batch)[..k]
    {
      var e := batch[k];
      var budget := if e.deadline > now then (e.deadline - now) % 0x1_0000_0000 else 0;
      items := items + [Job(e.sequence, e.opcode, budget, |e.body|)];
      bodies := bodies + [e.body];
      k := k + 1;
    }
  }

  /** The reply to a poll, written into a fresh buffer of its limit. */
  method Compose(generation: seq<byte>, lane: Lane, idle: u32, batch: seq<Entry>, now: nat) returns (text: Option<seq<byte>>)
    requires lane != NoLane && forall k :: 0 <= k < |batch| ==> |batch[k].body| < TEXT_CAPACITY
    ensures Reply1(generation, lane, idle, batch, now) ==
      if text.Some? then Text(text.value, Handed(batch), now) else Refused
  {
    hide IsHex, ReplyText, Items, Bodies, Handed;
    var items, bodies := Describe(batch, now);
    DescribedJobs(batch, now);
    var out := new Buffer(REPLY_MAX);
    var ok := EnvelopeText.FormatPollReply(out, generation, lane == Fast, idle, items, bodies);
    Described(batch, now);
    assert [] + ReplyText(generation, lane == Fast, idle, items, bodies) == ReplyText(generation, lane == Fast, idle, items, bodies);
    text := if ok then Some(out.data) else None;
  }

  lemma DescribedJobs(batch: seq<Entry>, now: nat)
    requires forall k :: 0 <= k < |batch| ==> |batch[k].body| < TEXT_CAPACITY
    ensures Fit(Items(batch, now), Bodies(batch)) && forall j :: j in Items(batch, now) ==> j.Job?
  {
  }

  lemma Described(batch: seq<Entry>, now: nat)
    requires forall k :: 0 <= k < |batch| ==> |batch[k].body| < TEXT_CAPACITY
    requires forall j :: j in Items(batch, now) ==> j.Job?
    ensures Small(batch) <==> forall j :: j in Items(batch, now) ==> IsHex(j.sequence, SEQUENCE_HEX)
  {
    hide IsHex;
    var items := Items(batch, now);
    assert forall k :: 0 <= k < |batch| ==> items[k] in items && items[k].sequence == batch[k].sequence;
  }

  class Channel {
    const queue: JobTable.Queue
    const inflight: array<Option<Waiting>>
    const translate: (u16, seq<byte>) -> Option<seq<byte>>
    var parkedFast: Option<nat>
    var parkedSlow: Option<nat>
    var calls: nat
    var received: nat
    ghost var requests: seq<Asked>
    ghost var answers: seq<Answered>
    ghost var reports: seq<seq<byte>>
    ghost var polls: seq<Option<seq<byte>>>
    ghost var spoken: seq<Spoken>

    ghost predicate Valid()
      reads this, queue, queue.jobs, inflight
    {
      queue.Valid() && inflight.Length == MAX_JOBS && received == |requests|
    }

    ghost function Value(): (b: BusState)
      reads this, queue, queue.jobs, inflight
    {
      BusState(queue.Value(), parkedFast, parkedSlow, inflight[..], translate, requests, answers, reports, calls, polls, spoken)
    }

    /** Every job in the table came from a request text. */
    ghost predicate Short()
      reads this, queue, queue.jobs
    {
      forall j :: 0 <= j < queue.jobs.Length ==> |queue.jobs[j].body| < TEXT_CAPACITY
    }

    constructor (generation: seq<byte>, translate: (u16, seq<byte>) -> Option<seq<byte>>)
      requires IsHex(generation, GENERATION_HEX)
      ensures Valid() && Short() && Value() == Bus.Start(generation, translate)
      ensures fresh(queue) && fresh(queue.jobs) && fresh(inflight)
    {
      queue := new JobTable.Queue(generation);
      inflight := new Option<Waiting>[MAX_JOBS](_ => None);
      this.translate := translate;
      parkedFast, parkedSlow, calls, received := None, None, 0, 0;
      requests, answers, reports, polls, spoken := [], [], [], [], [];
      new;
      assert inflight[..] == Bus.Start(generation, translate).inflight;
      assert queue.jobs[..] == JobQueue.Start(generation).jobs;
      assert forall j :: 0 <= j < queue.jobs.Length ==> queue.jobs[j] == queue.jobs[..][j];
    }

    /** answer: the text that was composed goes out, or an error where none could be. */
    method Reply(call: nat, text: Option<seq<byte>>, batch: seq<Entry>, now: nat)
      modifies this`spoken
      ensures spoken == old(spoken) + [Spoken(call, if text.Some? then Text(text.value, Handed(batch), now) else Refused)]
    {
      spoken := spoken + [Spoken(call, if text.Some? then Text(text.value, Handed(batch), now) else Refused)];
    }

    /** A batch of the lane, or the idle reply, to the given call. */
    method Hand(call: nat, lane: Lane, idle: u32, now: nat)
      requires Valid() && Short() && lane != NoLane
      modifies this`spoken, queue, queue.jobs
      ensures Valid() && Short() && Value() == Bus.Hand(old(Value()), call, lane, idle, now)
    {
      hide IsHex, Take, Reply1;
      ghost var b, q := Value(), queue.Value();
      var batch := queue.Take(lane, POLL_CAPACITY);
      TakeShort(q, lane, Min(Cap(lane), POLL_CAPACITY));
      var text := Compose(queue.generation, lane, if batch == [] then idle else 0, batch, now);
      Reply(call, text, batch, now);
    }

    /** release_park. */
    method ReleasePark(lane: Lane, now: nat)
      requires Valid() && Short() && lane != NoLane
      modifies this`parkedFast, this`parkedSlow, this`spoken, queue, queue.jobs
      ensures Valid() && Short() && Value() == Bus.ReleasePark(old(Value()), lane, now)
    {
      hide Bus.Hand;
      var call := if lane == Fast then parkedFast else parkedSlow;
      if call.None? {
        return;
      }
      if lane == Fast {
        parkedFast := None;
      } else {
        parkedSlow := None;
      }
      Hand(call.value, lane, IDLE_MS, now);
    }

    /** The search for a free entry in relay_readable. */
    method Slot() returns (slot: nat)
      requires Valid()
      ensures slot == FreeSlot(inflight[..], 0)
    {
      slot := 0;
      while slot < inflight.Length
        invariant 0 <= slot <= inflight.Length
        invariant FreeSlot(inflight[..], 0) == FreeSlot(inflight[..], slot)
      {
        if inflight[slot].None? {
          return;
        }
        slot := slot + 1;
      }
    }

    /** relay_readable, for a whole frame. */
    method RelayReadable(requestId: u64, opcode: u16, payload: seq<byte>, now: nat)
      requires Valid() && Short()
      modifies this, queue, queue.jobs, inflight
      ensures Valid() && Short() && Value() == Bus.RelayReadable(old(Value()), requestId, opcode, payload, now)
    {
      hide IsHex, RequestText, JobQueue.Submit, FreeSlot, Bus.ReleasePark, LaneFor;
      var text := RequestText(opcode, payload);
      if text.None? {
        Refuse(requestId, opcode, payload, now, STATUS_INVALID);
        return;
      }
      RequestTextShort(opcode, payload);
      var slot := Slot();
      if slot == MAX_JOBS {
        Refuse(requestId, opcode, payload, now, STATUS_BUSY);
        return;
      }
      ghost var q := queue.Value();
      var sequence := queue.Submit(opcode, text.value, now);
      SubmitShort(q, opcode, text.value, now);
      assert forall j :: 0 <= j < queue.jobs.Length ==> queue.jobs[j] == queue.Value().jobs[j];
      if sequence.None? {
        Refuse(requestId, opcode, payload, now, STATUS_BUSY);
        return;
      }
      ghost var before := inflight[..];
      inflight[slot] := Some(Waiting(requestId, opcode, sequence.value, received));
      received, requests := received + 1, requests + [Asked(requestId, Some(q.nextTicket), opcode, payload, now)];
      assert inflight[..] == before[slot := inflight[slot]];
      ReleasePark(LaneFor(opcode), now);
    }

    method Refuse(requestId: u64, opcode: u16, payload: seq<byte>, now: nat, status: u32)
      requires Valid()
      modifies this`received, this`requests, this`answers
      ensures Valid()
      ensures var asked := Asked(requestId, None, opcode, payload, now);
        Value() == Answer1(old(Value()).(requests := old(requests) + [asked]), |old(requests)|, requestId, status, [], None)
    {
      received, requests := received + 1, requests + [Asked(requestId, None, opcode, payload, now)];
      answers := answers + [Answered(|requests| - 1, requestId, status, [], None)];
    }

    /** relay_drain. */
    method RelayDrain()
      requires Valid() && Short()
      modifies this`answers, queue, queue.jobs, inflight
      ensures Valid() && Short() && Value() == Drain(old(Value()), 0)
    {
      hide IsHex, DrainOne;
      ghost var goal := Drain(Value(), 0);
      var index := 0;
      while index < inflight.Length
        invariant 0 <= index <= inflight.Length && Valid() && Short()
        invariant Drain(Value(), index) == goal
      {
        DrainEntry(index);
        index := index + 1;
      }
    }

    method DrainEntry(index: nat)
      requires Valid() && Short() && index < inflight.Length
      modifies this`answers, queue, queue.jobs, inflight
      ensures Valid() && Short() && Value() == DrainOne(old(Value()), index)
    {
      hide IsHex, Find;
      var entry := inflight[index];
      if entry.None? {
        return;
      }
      var w := entry.value;
      var result := queue.Result(w.sequence);
      if result.None? {
        return;
      }
      var (status, body) := Final(translate, w.opcode, result.value.0, result.value.1);
      answers := answers + [Answered(w.serial, w.requestId, status, body, Some(result.value.0))];
      queue.Release(w.sequence);
      assert forall j :: 0 <= j < queue.jobs.Length ==> queue.jobs[j] == queue.Value().jobs[j];
      ghost var before := inflight[..];
      inflight[index] := None;
      assert inflight[..] == before[index := None];
    }

    /** The Poll branch of handle_call. */
    method Poll(data: seq<byte>, now: nat)
      requires Valid() && Short()
      modifies this, queue, queue.jobs
      ensures Valid() && Short() && Value() == Poll1(old(Value()), data, now)
    {
      hide IsHex, Parse, Take, Bus.ReleasePark, Reply1;
      var call := calls;
      calls, polls := calls + 1, polls + [Some(data)];
      var m := EnvelopeText.ParsePoll(data);
      if m.None? || m.value.fields.gen != Some(queue.generation) {
        spoken := spoken + [Spoken(call, Refused)];
        return;
      }
      var lane := if m.value.fields.lane == Some(true) then Fast else Slow;
      ghost var q := queue.Value();
      var batch := queue.Take(lane, POLL_CAPACITY);
      TakeShort(q, lane, Min(Cap(lane), POLL_CAPACITY));
      assert forall j :: 0 <= j < queue.jobs.Length ==> queue.jobs[j] == queue.Value().jobs[j];
      if batch != [] {
        var text := Compose(queue.generation, lane, 0, batch, now);
        Reply(call, text, batch, now);
        return;
      }
      TakeNothing(q, lane, Min(Cap(lane), POLL_CAPACITY));
      ReleasePark(lane, now);
      if lane == Fast {
        parkedFast := Some(call);
      } else {
        parkedSlow := Some(call);
      }
    }

    /** The Report branch of handle_call. */
    method Report(data: seq<byte>)
      requires Valid() && Short()
      modifies this, queue, queue.jobs, inflight
      ensures Valid() && Short() && Value() == Report2(old(Value()), data)
    {
      hide IsHex, Parse, Report1, Drain;
      var call := calls;
      calls, polls := calls + 1, polls + [None];
      ghost var q := queue.Value();
      reports := TakenUp(Value(), data);
      var ok := queue.Report(data);
      ReportKept(q, data);
      assert forall j :: 0 <= j < queue.jobs.Length ==> queue.jobs[j] == queue.Value().jobs[j];
      if ok {
        RelayDrain();
      }
      spoken := spoken + [Spoken(call, if ok then Acknowledged else Refused)];
    }
  }

  predicate ShortBodies(jobs: seq<Entry>) {
    forall j :: 0 <= j < |jobs| ==> |jobs[j].body| < TEXT_CAPACITY
  }

  lemma {:induction false} TakeShort(q: JobQueue.State, lane: Lane, limit: nat)
    requires ShortBodies(q.jobs)
    ensures ShortBodies(Take(q, lane, limit).0.jobs) && ShortBodies(Take(q, lane, limit).1)
    decreases limit
  {
    hide Oldest;
    var i := Oldest(q.jobs, lane, |q.jobs|);
    if limit > 0 && i < |q.jobs| {
      var next := Send(q, i);
      TakeShort(next, lane, limit - 1);
      var batch := Take(q, lane, limit).1;
      assert batch == [next.jobs[i]] + Take(next, lane, limit - 1).1;
    }
  }

  lemma TakeNothing(q: JobQueue.State, lane: Lane, limit: nat)
    requires Take(q, lane, limit).1 == []
    ensures Take(q, lane, limit).0 == q
  {
  }

  lemma SubmitShort(q: JobQueue.State, opcode: u16, text: seq<byte>, now: nat)
    requires (forall j :: 0 <= j < |q.jobs| ==> |q.jobs[j].body| < TEXT_CAPACITY) && |text| < TEXT_CAPACITY
    ensures forall j :: 0 <= j < |Submit(q, opcode, text, now).0.jobs| ==> |Submit(q, opcode, text, now).0.jobs[j].body| < TEXT_CAPACITY
    ensures Submit(q, opcode, text, now).1.Some? ==> LaneFor(opcode) != NoLane
    ensures Submit(q, opcode, text, now).1.None? ==> Submit(q, opcode, text, now).0 == q
  {
  }
}

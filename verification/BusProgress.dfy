/** What the daemon does for whoever it hears from: nobody who can be served is refused or left waiting. */
module BusProgress {
  import opened Bytes
  import opened Numerals
  import opened Envelope
  import opened JobQueue
  import opened Bus
  import opened BusHistory

  // ----- answering ------------------------------------------------------------------------

  /** The request's job has been reported. */
  predicate Ready(b: BusState, i: nat)
    requires i < |b.inflight|
  {
    b.inflight[i].Some? && Answer(b.queue, b.inflight[i].value.sequence).Some?
  }

  lemma OneDrained(b: BusState, i: nat, j: nat)
    requires Core(b) && i < |b.inflight| && j < |b.inflight|
    ensures var r := DrainOne(b, i);
      && |r.inflight| == |b.inflight| && r.inflight[j] == (if j == i && Ready(b, i) then None else b.inflight[j])
      && (j != i ==> (Ready(r, j) <==> Ready(b, j)))
  {
    hide Sound, Hex, Find, Final, Linked, Served, Honest, Quiet, Delivered;
    if Ready(b, i) && j != i && b.inflight[j].Some? {
      var s, w := b.inflight[j].value.sequence, b.inflight[i].value.sequence;
      assert s != w by {
        assert i < j || j < i;
      }
      var k := Find(b.queue.jobs, w, 0);
      VacatedFind(b.queue, k, s);
      var n := Find(b.queue.jobs, s, 0);
      assert n < |b.queue.jobs| ==> n != k;
    }
  }

  lemma {:induction false} StepsDrain(b: BusState, calls: set<nat>, i: nat, j: nat)
    requires Core(b) && Open(b, calls) && i <= |b.inflight| && j < |b.inflight|
    ensures var r := Drain(b, i);
      |r.inflight| == |b.inflight| && r.inflight[j] == if i <= j && Ready(b, j) then None else b.inflight[j]
    decreases |b.inflight| - i
  {
    hide Core, Open, DrainOne, Ready;
    if i < |b.inflight| {
      OneDrained(b, i, j);
      DrainOneAgreed(b, calls, i);
      StepsDrain(DrainOne(b, i), calls, i + 1, j);
    }
  }

  /** An accepted report leaves exactly those requests waiting whose jobs have not been reported. */
  lemma ReportDrains(b: BusState, data: seq<byte>, j: nat)
    requires Agreed(b) && Report1(b.queue, data).1 && j < |b.inflight|
    ensures var q, r := Report1(b.queue, data).0, Report2(b, data);
      && |r.inflight| == |b.inflight|
      && r.inflight[j] ==
           if b.inflight[j].Some? && Answer(q, b.inflight[j].value.sequence).Some? then None else b.inflight[j]
  {
    hide Core, Open, Report1, Drain, Agreed, TakenUp;
    var applied := Called(b, None).(queue := Report1(b.queue, data).0, reports := TakenUp(b, data));
    AgreedParts(b);
    ReportCore(b, data);
    CallOpens(b, None);
    OpenSame(Called(b, None), applied, {b.calls});
    StepsDrain(applied, {b.calls}, 0, j);
  }

  /** Every request whose job an accepted report names has been answered, in the same callback, and is no longer waiting. */
  lemma ReportAnswersAll(b: BusState, data: seq<byte>, j: nat)
    requires Agreed(b) && Report1(b.queue, data).1 && j < |b.inflight| && b.inflight[j].Some?
    requires Parse(Report, data).Some? && Names(Parse(Report, data).value, b.inflight[j].value.sequence)
    ensures var r, serial := Report2(b, data), b.inflight[j].value.serial;
      AnsweredSerial(r, serial) && !WaitingSerial(r, serial)
  {
    hide Agreed, Report1, Report2, Parse, Answer, Sound, Matched, Linked, Honest, Quiet, Delivered, Open, AnsweredSerial;
    var q, r, w := Report1(b.queue, data).0, Report2(b, data), b.inflight[j].value;
    AgreedSound(b);
    ReportAnswers(b.queue, data, w.sequence);
    var m := Parse(Report, data).value;
    var k :| 0 <= k < |m.fields.entries| && m.fields.entries[k].Done? && m.fields.entries[k].sequence == w.sequence;
    assert k < |m.bodies|;
    assert Answer(q, w.sequence).Some?;
    ReportAgreed(b, data);
    forall i | 0 <= i < |r.inflight| && r.inflight[i].Some?
      ensures r.inflight[i].value.serial != w.serial
    {
      ReportDrains(b, data, j);
      ReportDrains(b, data, i);
      SerialsDiffer(b, i, j);
    }
    ReportDrains(b, data, j);
    NotWaiting(r, w.serial);
    ServedOne(b, r, data, j);
  }

  lemma SerialsDiffer(b: BusState, i: nat, j: nat)
    requires Agreed(b) && i < |b.inflight| && j < |b.inflight| && i != j && b.inflight[i].Some? && b.inflight[j].Some?
    ensures b.inflight[i].value.serial != b.inflight[j].value.serial
  {
    hide Sound, Matched, Linked, Honest, Quiet, Delivered, Open;
  }

  lemma NotWaiting(r: BusState, serial: nat)
    requires forall i :: 0 <= i < |r.inflight| && r.inflight[i].Some? ==> r.inflight[i].value.serial != serial
    ensures !WaitingSerial(r, serial)
  {
  }

  lemma ServedOne(b: BusState, r: BusState, data: seq<byte>, j: nat)
    requires Agreed(b) && r == Report2(b, data) && Agreed(r) && j < |b.inflight| && b.inflight[j].Some?
    ensures AnsweredSerial(r, b.inflight[j].value.serial) != WaitingSerial(r, b.inflight[j].value.serial)
  {
    hide Sound, Matched, Honest, Quiet, Delivered, Open, Hex, Report2, AnsweredSerial, WaitingSerial;
    ReportRequests(b, data);
  }

  lemma ReportRequests(b: BusState, data: seq<byte>)
    ensures Report2(b, data).requests == b.requests
  {
    hide Report1, TakenUp, Drain;
    var (queue, ok) := Report1(b.queue, data);
    DrainRequests(Called(b, None).(queue := queue, reports := TakenUp(b, data)), 0);
  }

  // ----- taking in ----------------------------------------------------------------------------

  /** The sequences waiting requests go by, in the first n entries. */
  function Sequences(inflight: seq<Option<Waiting>>, n: nat): (r: set<seq<byte>>)
    requires n <= |inflight|
  {
    set i | 0 <= i < n && inflight[i].Some? :: inflight[i].value.sequence
  }

  function Held(jobs: seq<Entry>, n: nat): (r: set<seq<byte>>)
    requires n <= |jobs|
  {
    set j | 0 <= j < n && jobs[j].phase != Free :: jobs[j].sequence
  }

  /** With an entry free, fewer sequences than entries. */
  lemma {:induction false} FewSequences(inflight: seq<Option<Waiting>>, n: nat)
    requires n <= |inflight|
    ensures |Sequences(inflight, n)| <= n
    ensures (exists i :: 0 <= i < n && inflight[i].None?) ==> |Sequences(inflight, n)| < n
    decreases n
  {
    if n > 0 {
      FewSequences(inflight, n - 1);
      var last := inflight[n - 1];
      assert Sequences(inflight, n) == Sequences(inflight, n - 1) + if last.Some? then {last.value.sequence} else {};
    }
  }

  /** With every slot held, each by another sequence, as many sequences as slots. */
  lemma {:induction false} AllHeld(jobs: seq<Entry>, n: nat)
    requires n <= |jobs| && forall j :: 0 <= j < n ==> jobs[j].phase != Free
    requires forall i, j :: 0 <= i < j < n ==> jobs[i].sequence != jobs[j].sequence
    ensures |Held(jobs, n)| == n
    decreases n
  {
    if n > 0 {
      AllHeld(jobs, n - 1);
      var last := jobs[n - 1].sequence;
      assert Held(jobs, n) == Held(jobs, n - 1) + {last};
      assert last !in Held(jobs, n - 1);
    }
  }

  lemma EachHeld(q: JobQueue.State)
    requires Sound(q) && forall j :: 0 <= j < |q.jobs| ==> q.jobs[j].phase != Free
    ensures forall i, j :: 0 <= i < j < |q.jobs| ==> q.jobs[i].sequence != q.jobs[j].sequence
  {
    hide Sound;
    forall i, j | 0 <= i < j < |q.jobs|
      ensures q.jobs[i].sequence != q.jobs[j].sequence
    {
      if q.jobs[i].sequence == q.jobs[j].sequence {
        OneSlot(q, i, j);
      }
    }
  }

  /** While a request can wait there is a slot for its job. */
  lemma SlotFree(b: BusState)
    requires Sound(b.queue) && Matched(b) && FreeSlot(b.inflight, 0) < |b.inflight|
    ensures FirstFree(b.queue.jobs, 0) < |b.queue.jobs|
  {
    hide Sound, FirstFree, FreeSlot;
    QueueSize(b.queue);
    if FirstFree(b.queue.jobs, 0) == |b.queue.jobs| {
      EachHeld(b.queue);
      AllHeld(b.queue.jobs, MAX_JOBS);
      assert b.inflight[FreeSlot(b.inflight, 0)].None?;
      FewSequences(b.inflight, MAX_JOBS);
      assert Held(b.queue.jobs, MAX_JOBS) <= Sequences(b.inflight, MAX_JOBS);
      SubsetSize(Held(b.queue.jobs, MAX_JOBS), Sequences(b.inflight, MAX_JOBS));
    }
  }

  lemma QueueSize(q: JobQueue.State)
    requires Sound(q)
    ensures |q.jobs| == MAX_JOBS
  {
    hide Hex;
  }

  lemma {:induction false} SubsetSize<T>(a: set<T>, b: set<T>)
    requires a <= b
    ensures |a| <= |b|
    decreases a
  {
    if a != {} {
      var x :| x in a;
      SubsetSize(a - {x}, b - {x});
    }
  }

  lemma {:induction false} NoneFree(inflight: seq<Option<Waiting>>, i: nat)
    requires i <= |inflight|
    ensures FreeSlot(inflight, i) == |inflight| <==> forall k :: i <= k < |inflight| ==> inflight[k].Some?
    decreases |inflight| - i
  {
    if i < |inflight| && inflight[i].Some? {
      NoneFree(inflight, i + 1);
    }
  }

  lemma TextsHaveLanes(opcode: u16, payload: seq<byte>)
    requires RequestText(opcode, payload).Some?
    ensures LaneFor(opcode) != NoLane
  {
    hide Digits, Signed, FromLe32, FromLe64;
  }

  /** A request becomes a job exactly when it is well formed and fewer than 128 are waiting. */
  lemma TakenInExactly(b: BusState, requestId: u64, opcode: u16, payload: seq<byte>, now: nat)
    requires Agreed(b)
    ensures var r := RelayReadable(b, requestId, opcode, payload, now);
      && |r.requests| == |b.requests| + 1
      && (r.requests[|b.requests|].ticket.Some? <==>
            RequestText(opcode, payload).Some? && exists i :: 0 <= i < |b.inflight| && b.inflight[i].None?)
  {
    hide RequestText, Sound, FreeSlot, LaneFor, FirstFree, Matched, Linked, Served, Honest, Quiet, Delivered, Open, Fresh;
    NoneFree(b.inflight, 0);
    if RequestText(opcode, payload).Some? {
      TextsHaveLanes(opcode, payload);
      if FreeSlot(b.inflight, 0) < |b.inflight| {
        SlotFree(b);
        var (queue, sequence) := Submit(b.queue, opcode, RequestText(opcode, payload).value, now);
        var w := Waiting(requestId, opcode, sequence.value, |b.requests|);
        ReleaseRequests(Entered(b, queue, FreeSlot(b.inflight, 0), w, payload, now), LaneFor(opcode), now);
      }
    }
  }

  lemma ReleaseRequests(b: BusState, lane: Lane, now: nat)
    ensures ReleasePark(b, lane, now).requests == b.requests
  {
    hide Take, Reply1;
  }

  // ----- polls -----------------------------------------------------------------------------------

  /** A good poll of this session. */
  predicate GoodPoll(b: BusState, data: seq<byte>) {
    Parse(Poll, data).Some? && Parse(Poll, data).value.fields.gen == Some(b.queue.generation)
  }

  lemma TakeSome(q: JobQueue.State, lane: Lane, limit: nat)
    requires limit > 0
    ensures Take(q, lane, limit).1 == [] <==> NoneQueued(q.jobs, lane)
  {
    var i := Oldest(q.jobs, lane, |q.jobs|);
  }

  /** The last thing said, to whom. */
  predicate LastSaid(b: BusState, r: BusState, call: nat) {
    |r.spoken| == |b.spoken| + 1 && r.spoken[..|b.spoken|] == b.spoken && r.spoken[|b.spoken|].call == call
  }

  /**
   * A poll is refused exactly if it is no good one of this session; a good one
   * is answered at once with jobs exactly if its lane has one queued, and is
   * parked otherwise, the one parked there before being answered without.
   */
  lemma PollExactly(b: BusState, data: seq<byte>, now: nat)
    requires Agreed(b)
    ensures var r, call := Poll1(b, data, now), b.calls;
      if !GoodPoll(b, data) then
        r.spoken == b.spoken + [Spoken(call, Refused)] && r.queue == b.queue
        && r.parkedFast == b.parkedFast && r.parkedSlow == b.parkedSlow
      else
        var lane := if Parse(Poll, data).value.fields.lane == Some(true) then Fast else Slow;
        if NoneQueued(b.queue.jobs, lane) then
          && Parked(r, lane) == Some(call) && r.queue.jobs == b.queue.jobs
          && (if Parked(b, lane).None? then r.spoken == b.spoken
              else LastSaid(b, r, Parked(b, lane).value) && r.spoken[|b.spoken|].said.Text?
                   && r.spoken[|b.spoken|].said.batch == [])
        else
          && Parked(r, lane) == Parked(b, lane) && LastSaid(b, r, call)
          && r.spoken[|b.spoken|].said.Text? && r.spoken[|b.spoken|].said.batch != []
  {
    hide Parse, Take, Sound, Matched, Linked, Served, Honest, Quiet, Delivered, Open, Reply1, NoneQueued;
    if GoodPoll(b, data) {
      var called, lane := Called(b, Some(data)), LaneOf(Parse(Poll, data).value);
      TakeSome(b.queue, lane, Min(Cap(lane), POLL_CAPACITY));
      var free := if Parked(b, lane).Some? then SetParked(called, lane, None) else called;
      HandSays(free, if Parked(b, lane).Some? then Parked(b, lane).value else b.calls, lane, IDLE_MS, now) by {
        CoreOf(b, free);
      }
      HandSays(called, b.calls, lane, 0, now) by {
        CoreOf(b, called);
      }
      if NoneQueued(b.queue.jobs, lane) {
        TakeNothing(b.queue, lane, Min(Cap(lane), POLL_CAPACITY));
      }
    }
  }

  lemma CoreOf(b: BusState, r: BusState)
    requires Agreed(b) && r.queue == b.queue && r.spoken == b.spoken
    ensures Sound(r.queue) && Delivered(r)
  {
    hide Sound, Hex, IsHex, Batches;
  }

  lemma TakeNothing(q: JobQueue.State, lane: Lane, limit: nat)
    requires Take(q, lane, limit).1 == []
    ensures Take(q, lane, limit).0 == q
  {
  }

  lemma HandedSize(batch: seq<Entry>)
    ensures Handed(batch) == [] <==> batch == []
  {
  }

  /** Handing out says something to the call, with jobs exactly if there are any. */
  lemma HandSays(b: BusState, call: nat, lane: Lane, idle: u32, now: nat)
    requires Sound(b.queue) && Delivered(b)
    ensures var r := Bus.Hand(b, call, lane, idle, now);
      && LastSaid(b, r, call) && r.spoken[|b.spoken|].said.Text?
      && (r.spoken[|b.spoken|].said.batch == [] <==> Take(b.queue, lane, Min(Cap(lane), POLL_CAPACITY)).1 == [])
      && r.parkedFast == b.parkedFast && r.parkedSlow == b.parkedSlow
      && r.queue == Take(b.queue, lane, Min(Cap(lane), POLL_CAPACITY)).0
  {
    hide IsHex, Sound, Take, Reply1, Handed, Small;
    var limit := Min(Cap(lane), POLL_CAPACITY);
    var (queue, batch) := Take(b.queue, lane, limit);
    TakeBatch(b.queue, lane, limit);
    SendableOf(b);
    TakeSmall(b.queue, lane, limit);
    ReplyWritten(b.queue.generation, lane, if batch == [] then idle else 0, batch, now);
    HandedSize(batch);
  }
}

module Bus {

  // The session daemon's callbacks: relayed requests become jobs, polls are answered or parked, reports passed back.

  import opened Bytes
  import opened Numerals
  import opened Envelope
  import opened JobQueue

  const STATUS_OK: u32 := 0
  const STATUS_INVALID: u32 := 3
  const STATUS_BUSY: u32 := 5
  const STATUS_INTERNAL: u32 := 255
  const REPLY_MAX: nat := 65536
  const IDLE_MS: u32 := 8000
  const TEXT_CAPACITY: nat := 160
  const POLL_CAPACITY: nat := 8

  // ----- the text of a request ------------------------------------------------------

  /** A 32-bit word read as a signed number and printed. */
  function Signed(v: u32): (r: seq<byte>) {
    if v < 0x8000_0000 then Digits(v) else [45] + Digits(0x1_0000_0000 - v)
  }

  function Handle(payload: seq<byte>): (r: u64)
    requires |payload| >= 8
  {
    FromLe64(payload[..8])
  }

  function Word(payload: seq<byte>, at: nat): (r: u32)
    requires at + 4 <= |payload|
  {
    FromLe32(payload[at..at + 4])
  }

  /** ksd_kwin_request_text, before the check against the capacity. */
  function RequestText(opcode: u16, payload: seq<byte>): (r: Option<seq<byte>>) {
    if opcode in {0x2013, 0x2011, 0x2050, 0x2051} then (if payload == [] then Some([]) else None)
    else if opcode == 0x2010 then
      (if |payload| != 8 || Word(payload, 0) > 1 || Word(payload, 4) != 0 then None else Some(Digits(Word(payload, 0))))
    else if opcode in {0x2014, 0x2020, 0x2021, 0x2022, 0x2023} then
      (if |payload| != 8 || Handle(payload) == 0 then None else Some(Digits(Handle(payload))))
    else if opcode == 0x2025 then
      (if |payload| != 24 || Handle(payload) == 0 then None
       else Some(Digits(Handle(payload)) + [SPACE] + Signed(Word(payload, 8)) + [SPACE] + Signed(Word(payload, 12))
                 + [SPACE] + Digits(Word(payload, 16)) + [SPACE] + Digits(Word(payload, 20))))
    else if opcode in {0x2027, 0x2028, 0x2029, 0x202a, 0x202d} then
      var maximum := if opcode == 0x2028 then 255 else if opcode == 0x2027 then 3 else 1;
      (if |payload| != 16 || Handle(payload) == 0 || Word(payload, 12) != 0 || Word(payload, 8) > maximum then None
       else Some(Digits(Handle(payload)) + [SPACE] + Digits(Word(payload, 8))))
    else None
  }

  lemma HandleDigits(v: u64)
    ensures |Digits(v)| <= 20
  {
    assert Power10(5) == 100000;
    assert Power10(10) == 10000000000;
    assert Power10(15) == 1000000000000000;
    assert Power10(20) == 100000000000000000000;
    DigitsLength(v, Power10(20), 20);
  }

  lemma SignedDigits(v: u32)
    ensures |Signed(v)| <= 11
  {
    hide Digits;
    if v < 0x8000_0000 {
      TenDigits(v);
    } else {
      TenDigits(0x1_0000_0000 - v);
    }
  }

  const MAX_BODY: nat := 66

  /** Every request text fits the buffer it is printed into, with room to spare. */
  lemma RequestTextShort(opcode: u16, payload: seq<byte>)
    requires RequestText(opcode, payload).Some?
    ensures |RequestText(opcode, payload).value| <= MAX_BODY < TEXT_CAPACITY
  {
    hide Digits, Signed, FromLe32, FromLe64;
    if |payload| >= 8 {
      HandleDigits(Handle(payload));
      TenDigits(Word(payload, 0));
    }
    if |payload| >= 12 {
      SignedDigits(Word(payload, 8));
      TenDigits(Word(payload, 8));
    }
    if |payload| == 24 {
      SignedDigits(Word(payload, 12));
      TenDigits(Word(payload, 16));
      TenDigits(Word(payload, 20));
    }
  }

  // ----- the state --------------------------------------------------------------------

  /** A relayed request waiting on the script; serial counts the requests received before it. */
  datatype Waiting = Waiting(requestId: u64, opcode: u16, sequence: seq<byte>, serial: nat)

  /** An answer to a relayed request, and what the script reported, if the script was asked. */
  datatype Answered = Answered(serial: nat, requestId: u64, status: u32, body: seq<byte>, reported: Option<u32>)

  /** What a poll, report or other call of the script was answered with. */
  datatype Said = Text(text: seq<byte>, batch: seq<Sent>, at: nat) | Acknowledged | Refused

  datatype Spoken = Spoken(call: nat, said: Said)

  /** A request received, the ticket of the job it became, if it became one, and when that was. */
  datatype Asked = Asked(id: u64, ticket: Option<nat>, opcode: u16, payload: seq<byte>, at: nat)

  datatype BusState = BusState(
    queue: JobQueue.State,
    parkedFast: Option<nat>, parkedSlow: Option<nat>,
    inflight: seq<Option<Waiting>>,
    translate: (u16, seq<byte>) -> Option<seq<byte>>,
    requests: seq<Asked>,
    answers: seq<Answered>,
    reports: seq<seq<byte>>,      // the reports taken up: those that passed the first check
    calls: nat,                   // the calls the script has made
    polls: seq<Option<seq<byte>>>,  // and, of each, what it asked if it was a poll
    spoken: seq<Spoken>)

  function Start(generation: seq<byte>, translate: (u16, seq<byte>) -> Option<seq<byte>>): (b: BusState) {
    BusState(JobQueue.Start(generation), None, None, seq(MAX_JOBS, _ => None), translate, [], [], [], 0, [], [])
  }

  function Parked(b: BusState, lane: Lane): (r: Option<nat>) {
    if lane == Fast then b.parkedFast else b.parkedSlow
  }

  function SetParked(b: BusState, lane: Lane, call: Option<nat>): (r: BusState) {
    if lane == Fast then b.(parkedFast := call) else b.(parkedSlow := call)
  }

  function Say(b: BusState, call: nat, said: Said): (r: BusState) {
    b.(spoken := b.spoken + [Spoken(call, said)])
  }

  function Answer1(b: BusState, serial: nat, requestId: u64, status: u32, body: seq<byte>, reported: Option<u32>): (r: BusState) {
    b.(answers := b.answers + [Answered(serial, requestId, status, body, reported)])
  }

  // ----- handing out ----------------------------------------------------------------------

  function Budget(e: Entry, now: nat): (ms: u32) {
    if e.deadline > now then (e.deadline - now) % 0x1_0000_0000 else 0
  }

  /** dispatch_jobs. */
  function Items(batch: seq<Entry>, now: nat): (r: seq<Item>)
    requires forall k :: 0 <= k < |batch| ==> |batch[k].body| < TEXT_CAPACITY
    ensures |r| == |batch|
  {
    seq(|batch|, k requires 0 <= k < |batch| =>
      Job(batch[k].sequence, batch[k].opcode, Budget(batch[k], now), |batch[k].body|))
  }

  function Bodies(batch: seq<Entry>): (r: seq<seq<byte>>)
    ensures |r| == |batch|
  {
    seq(|batch|, k requires 0 <= k < |batch| => batch[k].body)
  }

  predicate Small(batch: seq<Entry>) {
    forall k :: 0 <= k < |batch| ==> |batch[k].body| < TEXT_CAPACITY && IsHex(batch[k].sequence, SEQUENCE_HEX)
  }

  /** The reply to a poll, or the refusal of one that cannot be written. */
  function Reply1(generation: seq<byte>, lane: Lane, idle: u32, batch: seq<Entry>, now: nat): (said: Said) {
    if !Small(batch) || !IsHex(generation, GENERATION_HEX) || |batch| > Cap(lane) then Refused
    else
      var text := ReplyText(generation, lane == Fast, idle, Items(batch, now), Bodies(batch));
      if |text| > REPLY_MAX then Refused else Text(text, Handed(batch), now)
  }

  function Hand(b: BusState, call: nat, lane: Lane, idle: u32, now: nat): (r: BusState) {
    var (queue, batch) := Take(b.queue, lane, Min(Cap(lane), POLL_CAPACITY));
    Say(b.(queue := queue), call, Reply1(b.queue.generation, lane, if batch == [] then idle else 0, batch, now))
  }

  /** release_park. */
  function ReleasePark(b: BusState, lane: Lane, now: nat): (r: BusState) {
    var call := Parked(b, lane);
    if call.None? then b else Hand(SetParked(b, lane, None), call.value, lane, IDLE_MS, now)
  }

  // ----- relayed requests -------------------------------------------------------------------

  function FreeSlot(inflight: seq<Option<Waiting>>, i: nat): (k: nat)
    requires i <= |inflight|
    ensures i <= k <= |inflight| && (k < |inflight| ==> inflight[k].None?)
    decreases |inflight| - i
  {
    if i == |inflight| || inflight[i].None? then i else FreeSlot(inflight, i + 1)
  }

  function Entered(b: BusState, queue: JobQueue.State, slot: nat, w: Waiting, payload: seq<byte>, now: nat): (r: BusState)
    requires slot < |b.inflight|
  {
    b.(queue := queue, inflight := b.inflight[slot := Some(w)],
       requests := b.requests + [Asked(w.requestId, Some(b.queue.nextTicket), w.opcode, payload, now)])
  }

  /** relay_readable, for a whole frame. */
  function RelayReadable(b: BusState, requestId: u64, opcode: u16, payload: seq<byte>, now: nat): (r: BusState) {
    var text, serial := RequestText(opcode, payload), |b.requests|;
    var refused := b.(requests := b.requests + [Asked(requestId, None, opcode, payload, now)]);
    if text.None? then Answer1(refused, serial, requestId, STATUS_INVALID, [], None)
    else
      var slot := FreeSlot(b.inflight, 0);
      var (queue, sequence) := Submit(b.queue, opcode, text.value, now);
      if slot == |b.inflight| || sequence.None? then Answer1(refused, serial, requestId, STATUS_BUSY, [], None)
      else
        ReleasePark(Entered(b, queue, slot, Waiting(requestId, opcode, sequence.value, serial), payload, now), LaneFor(opcode), now)
  }

  /** The status and body relay_answer sends: a success the body does not bear out is an internal error. */
  function Final(translate: (u16, seq<byte>) -> Option<seq<byte>>, opcode: u16, status: u32, body: seq<byte>): (r: (u32, seq<byte>)) {
    if status != STATUS_OK then (status, [])
    else if translate(opcode, body).None? || |translate(opcode, body).value| > MAX_TEXT_BYTES + 4 then (STATUS_INTERNAL, [])
    else (STATUS_OK, translate(opcode, body).value)
  }

  /** One turn of relay_drain. */
  function DrainOne(b: BusState, i: nat): (r: BusState)
    requires i < |b.inflight|
    ensures |r.inflight| == |b.inflight|
  {
    if b.inflight[i].None? then b
    else
      var w := b.inflight[i].value;
      var result := JobQueue.Answer(b.queue, w.sequence);
      if result.None? then b
      else
        var (status, body) := Final(b.translate, w.opcode, result.value.0, result.value.1);
        Answer1(b, w.serial, w.requestId, status, body, Some(result.value.0))
          .(queue := Release(b.queue, w.sequence), inflight := b.inflight[i := None])
  }

  function Drain(b: BusState, i: nat): (r: BusState)
    requires i <= |b.inflight|
    decreases |b.inflight| - i
  {
    if i == |b.inflight| then b else Drain(DrainOne(b, i), i + 1)
  }

  // ----- calls of the script ------------------------------------------------------------------

  function LaneOf(m: Message): (lane: Lane) {
    if m.fields.lane == Some(true) then Fast else Slow
  }

  /** A call of the script comes in. */
  function Called(b: BusState, poll: Option<seq<byte>>): (r: BusState) {
    b.(calls := b.calls + 1, polls := b.polls + [poll])
  }

  /** The Poll branch of handle_call. */
  function Poll1(b: BusState, data: seq<byte>, now: nat): (r: BusState) {
    var call, m := b.calls, Parse(Poll, data);
    var called := Called(b, Some(data));
    if m.None? || m.value.fields.gen != Some(b.queue.generation) then Say(called, call, Refused)
    else
      var lane := LaneOf(m.value);
      if Take(b.queue, lane, Min(Cap(lane), POLL_CAPACITY)).1 != [] then Hand(called, call, lane, 0, now)
      else SetParked(ReleasePark(called, lane, now), lane, Some(call))
  }

  function TakenUp(b: BusState, data: seq<byte>): (r: seq<seq<byte>>) {
    if Passes(b.queue, data) then b.reports + [data] else b.reports
  }

  /** The Report branch of handle_call. */
  function Report2(b: BusState, data: seq<byte>): (r: BusState) {
    var call := b.calls;
    var (queue, ok) := Report1(b.queue, data);
    var applied := Called(b, None).(queue := queue, reports := TakenUp(b, data));
    if ok then Say(Drain(applied, 0), call, Acknowledged) else Say(applied, call, Refused)
  }

  // ----- what holds between callbacks ----------------------------------------------------------

  predicate Holds(jobs: seq<Entry>, sequence: seq<byte>) {
    exists j :: 0 <= j < |jobs| && jobs[j].phase != Free && jobs[j].sequence == sequence
  }

  predicate Waits(inflight: seq<Option<Waiting>>, sequence: seq<byte>) {
    exists i :: 0 <= i < |inflight| && inflight[i].Some? && inflight[i].value.sequence == sequence
  }

  /** Waiting requests and occupied slots correspond one to one, by sequence. */
  ghost predicate Matched(b: BusState) {
    && |b.inflight| == MAX_JOBS
    && (forall i :: 0 <= i < |b.inflight| && b.inflight[i].Some? ==> Holds(b.queue.jobs, b.inflight[i].value.sequence))
    && (forall j :: 0 <= j < |b.queue.jobs| && b.queue.jobs[j].phase != Free ==> Waits(b.inflight, b.queue.jobs[j].sequence))
    && (forall i, j :: 0 <= i < j < |b.inflight| && b.inflight[i].Some? && b.inflight[j].Some? ==>
          b.inflight[i].value.sequence != b.inflight[j].value.sequence)
  }

  /** The tickets of the requests that became jobs. */
  function Tickets(requests: seq<Asked>): (r: seq<nat>)
    ensures |r| <= |requests|
  {
    if requests == [] then []
    else
      var last := requests[|requests| - 1].ticket;
      Tickets(requests[..|requests| - 1]) + if last.Some? then [last.value] else []
  }

  /** They are all the tickets ever issued, each to one request, in order. */
  ghost predicate Ticketed(requests: seq<Asked>, next: nat) {
    var ts := Tickets(requests);
    |ts| + 1 == next && forall i :: 0 <= i < |ts| ==> ts[i] == i + 1
  }

  lemma TicketedMore(requests: seq<Asked>, next: nat, a: Asked)
    requires Ticketed(requests, next) && (a.ticket.Some? ==> a.ticket.value == next)
    ensures Ticketed(requests + [a], if a.ticket.Some? then next + 1 else next)
  {
    assert (requests + [a])[..|requests|] == requests;
  }

  lemma {:induction false} TicketAsked(requests: seq<Asked>, i: nat) returns (q: nat)
    requires i < |Tickets(requests)|
    ensures q < |requests| && requests[q].ticket == Some(Tickets(requests)[i])
    decreases |requests|
  {
    var front := requests[..|requests| - 1];
    if i < |Tickets(front)| {
      q := TicketAsked(front, i);
    } else {
      q := |requests| - 1;
    }
  }

  lemma {:induction false} AskedTicket(requests: seq<Asked>, q: nat) returns (i: nat)
    requires q < |requests| && requests[q].ticket.Some?
    ensures i < |Tickets(requests)| && Tickets(requests)[i] == requests[q].ticket.value
    ensures i == |Tickets(requests[..q])|
    decreases |requests|
  {
    var front := requests[..|requests| - 1];
    if q < |front| {
      i := AskedTicket(front, q);
      assert front[..q] == requests[..q];
    } else {
      i := |Tickets(front)|;
    }
  }

  /** A waiting request knows its job. */
  ghost predicate Linked(b: BusState) {
    && Ticketed(b.requests, b.queue.nextTicket)
    && (forall i :: 0 <= i < |b.inflight| && b.inflight[i].Some? ==>
          var w := b.inflight[i].value;
          && w.serial < |b.requests| && b.requests[w.serial].id == w.requestId && b.requests[w.serial].ticket.Some?
          && w.sequence == Hex(b.requests[w.serial].ticket.value, SEQUENCE_HEX))
  }

  predicate AnsweredSerial(b: BusState, s: nat) {
    exists k :: 0 <= k < |b.answers| && b.answers[k].serial == s
  }

  predicate WaitingSerial(b: BusState, s: nat) {
    exists i :: 0 <= i < |b.inflight| && b.inflight[i].Some? && b.inflight[i].value.serial == s
  }

  /** Every request received is either waiting or answered, never both, and never answered twice. */
  ghost predicate Served(b: BusState) {
    && (forall k :: 0 <= k < |b.answers| ==> b.answers[k].serial < |b.requests|)
    && (forall k, l :: 0 <= k < l < |b.answers| ==> b.answers[k].serial != b.answers[l].serial)
    && (forall i, j :: 0 <= i < j < |b.inflight| && b.inflight[i].Some? && b.inflight[j].Some? ==>
          b.inflight[i].value.serial != b.inflight[j].value.serial)
    && (forall s :: 0 <= s < |b.requests| ==> AnsweredSerial(b, s) != WaitingSerial(b, s))
  }

  /** An answer is the script's own, or the refusal of a request that never became a job. */
  ghost predicate Honest(b: BusState) {
    forall k :: 0 <= k < |b.answers| ==>
      var a := b.answers[k];
      && a.serial < |b.requests| && b.requests[a.serial].id == a.requestId && |a.body| <= MAX_TEXT_BYTES + 4
      && (a.reported.None? <==> b.requests[a.serial].ticket.None?)
      && (a.reported.Some? && a.status == STATUS_BUSY ==> a.reported == Some(STATUS_BUSY))
  }

  /** While a poll is parked its lane has nothing to hand out. */
  ghost predicate Quiet(b: BusState) {
    forall lane :: lane != NoLane && Parked(b, lane).Some? ==> NoneQueued(b.queue.jobs, lane)
  }

  function Batches(spoken: seq<Spoken>): (r: seq<Sent>) {
    if spoken == [] then []
    else
      var said := spoken[|spoken| - 1].said;
      Batches(spoken[..|spoken| - 1]) + if said.Text? then said.batch else []
  }

  /** What was marked as handed out is exactly what the replies carried. */
  ghost predicate Delivered(b: BusState) {
    && Batches(b.spoken) == b.queue.sent && IsHex(b.queue.generation, GENERATION_HEX)
    && forall j :: 0 <= j < |b.queue.jobs| ==> |b.queue.jobs[j].body| < TEXT_CAPACITY
  }

  predicate Heard(b: BusState, c: nat) {
    exists k :: 0 <= k < |b.spoken| && b.spoken[k].call == c
  }

  predicate IsParked(b: BusState, c: nat) {
    b.parkedFast == Some(c) || b.parkedSlow == Some(c)
  }

  /**
   * Every call of the script outside the given set is either parked or
   * completed, and completed once; those in the set are neither yet.
   */
  ghost predicate Open(b: BusState, calls: set<nat>) {
    && (forall k :: 0 <= k < |b.spoken| ==> b.spoken[k].call < b.calls)
    && (forall k, l :: 0 <= k < l < |b.spoken| ==> b.spoken[k].call != b.spoken[l].call)
    && (b.parkedFast.Some? ==> b.parkedFast.value < b.calls)
    && (b.parkedSlow.Some? ==> b.parkedSlow.value < b.calls && b.parkedSlow != b.parkedFast)
    && (forall c :: c in calls ==> c < b.calls && !Heard(b, c) && !IsParked(b, c))
    && (forall c :: 0 <= c < b.calls && c !in calls ==> Heard(b, c) != IsParked(b, c))
  }

  ghost predicate Agreed(b: BusState) {
    && Sound(b.queue) && Matched(b) && Linked(b) && Served(b) && Honest(b) && Quiet(b) && Delivered(b) && Open(b, {})
  }

  lemma StartAgreed(generation: seq<byte>, translate: (u16, seq<byte>) -> Option<seq<byte>>)
    requires IsHex(generation, GENERATION_HEX)
    ensures Agreed(Start(generation, translate))
  {
    hide IsHex, Sound;
    StartSound(generation);
  }

  // ----- queue changes that keep every slot where it is ----------------------------------------

  /** The same jobs in the same slots; nothing becomes queued. */
  predicate Kept(q: JobQueue.State, r: JobQueue.State) {
    && |q.jobs| == |r.jobs| && q.generation == r.generation && q.nextTicket == r.nextTicket
    && forall j :: 0 <= j < |q.jobs| ==>
         && r.jobs[j].sequence == q.jobs[j].sequence && r.jobs[j].body == q.jobs[j].body && r.jobs[j].lane == q.jobs[j].lane
         && (r.jobs[j].phase == Free <==> q.jobs[j].phase == Free)
         && (r.jobs[j].phase == Queued ==> q.jobs[j].phase == Queued)
  }

  lemma {:induction false} TakeKept(q: JobQueue.State, lane: Lane, limit: nat)
    ensures Kept(q, Take(q, lane, limit).0)
    decreases limit
  {
    hide Oldest;
    var i := Oldest(q.jobs, lane, |q.jobs|);
    if limit > 0 && i < |q.jobs| {
      TakeKept(Send(q, i), lane, limit - 1);
    }
  }

  lemma {:induction false} CompleteAllKept(q: JobQueue.State, entries: seq<Item>, bodies: seq<seq<byte>>)
    requires |entries| == |bodies| && forall k :: 0 <= k < |entries| ==> entries[k].Done?
    ensures Kept(q, CompleteAll(q, entries, bodies).0)
    decreases |entries|
  {
    hide Find;
    if entries != [] {
      var (next, ok) := Complete1(q, q.generation, entries[0].sequence, entries[0].status, bodies[0]);
      assert Kept(q, next);
      if ok {
        CompleteAllKept(next, entries[1..], bodies[1..]);
      }
    }
  }

  lemma ReportKept(q: JobQueue.State, data: seq<byte>)
    ensures Kept(q, Report1(q, data).0)
  {
    hide Parse, CompleteAll;
    if Passes(q, data) {
      ReportShape(data);
      var m := Parse(Report, data).value;
      CompleteAllKept(q, m.fields.entries, m.bodies);
    }
  }

  lemma KeptMatched(b: BusState, c: BusState)
    requires Matched(b) && Linked(b) && Kept(b.queue, c.queue) && c.inflight == b.inflight && c.requests == b.requests
    ensures Matched(c) && Linked(c)
  {
    hide Hex, Waits;
    forall i | 0 <= i < |c.inflight| && c.inflight[i].Some?
      ensures Holds(c.queue.jobs, c.inflight[i].value.sequence)
    {
      var w := b.inflight[i].value.sequence;
      var j :| 0 <= j < |b.queue.jobs| && b.queue.jobs[j].phase != Free && b.queue.jobs[j].sequence == w;
      assert c.queue.jobs[j].sequence == w;
    }
  }

  // ----- calls ------------------------------------------------------------------------------------

  lemma HeardMore(b: BusState, r: BusState, call: nat, said: Said)
    requires r.spoken == b.spoken + [Spoken(call, said)]
    ensures forall c :: Heard(r, c) <==> Heard(b, c) || c == call
  {
    forall c
      ensures Heard(r, c) <==> Heard(b, c) || c == call
    {
      if Heard(b, c) {
        var k :| 0 <= k < |b.spoken| && b.spoken[k].call == c;
        assert r.spoken[k].call == c;
      }
      if c == call {
        assert r.spoken[|b.spoken|].call == c;
      }
    }
  }

  lemma SayCloses(b: BusState, calls: set<nat>, call: nat, said: Said)
    requires Open(b, calls) && call in calls
    ensures Open(Say(b, call, said), calls - {call})
  {
    var r := Say(b, call, said);
    HeardMore(b, r, call, said);
    assert forall k :: 0 <= k < |b.spoken| ==> Heard(b, b.spoken[k].call);
    hide Heard;
  }

  lemma UnparkOpens(b: BusState, calls: set<nat>, lane: Lane)
    requires Open(b, calls) && Parked(b, lane).Some?
    ensures Open(SetParked(b, lane, None), calls + {Parked(b, lane).value})
  {
    var r := SetParked(b, lane, None);
    HeardSame(b, r);
    hide Heard;
  }

  lemma HeardSame(b: BusState, r: BusState)
    requires b.spoken == r.spoken
    ensures forall c :: Heard(b, c) <==> Heard(r, c)
  {
  }

  lemma CallOpens(b: BusState, poll: Option<seq<byte>>)
    requires Open(b, {})
    ensures Open(Called(b, poll), {b.calls})
  {
    var r := Called(b, poll);
    HeardSame(b, r);
    assert !Heard(b, b.calls);
    hide Heard;
  }

  lemma ParkCloses(b: BusState, calls: set<nat>, lane: Lane, call: nat)
    requires Open(b, calls) && call in calls && Parked(b, lane).None?
    ensures Open(SetParked(b, lane, Some(call)), calls - {call})
  {
    var r := SetParked(b, lane, Some(call));
    HeardSame(b, r);
    hide Heard;
  }

  lemma OpenSame(b: BusState, r: BusState, calls: set<nat>)
    requires Open(b, calls) && r.spoken == b.spoken && r.calls == b.calls
    requires r.parkedFast == b.parkedFast && r.parkedSlow == b.parkedSlow
    ensures Open(r, calls)
  {
    HeardSame(b, r);
    hide Heard;
  }

  // ----- handing out a batch -------------------------------------------------------------------------

  lemma SequenceIsHex(q: JobQueue.State, j: nat)
    requires Sound(q) && j < |q.jobs| && q.jobs[j].phase != Free
    ensures IsHex(q.jobs[j].sequence, SEQUENCE_HEX)
  {
    hide Hex, IsHex;
    WordSize();
    HexRead(q.jobs[j].ticket, SEQUENCE_HEX);
  }

  predicate Sendable(q: JobQueue.State) {
    forall j :: 0 <= j < |q.jobs| && q.jobs[j].phase != Free ==>
      |q.jobs[j].body| < TEXT_CAPACITY && IsHex(q.jobs[j].sequence, SEQUENCE_HEX)
  }

  lemma {:induction false} TakeSmall(q: JobQueue.State, lane: Lane, limit: nat)
    requires Sendable(q)
    ensures Small(Take(q, lane, limit).1)
    decreases limit
  {
    hide Oldest, IsHex;
    var i := Oldest(q.jobs, lane, |q.jobs|);
    if limit > 0 && i < |q.jobs| {
      var next := Send(q, i);
      assert Sendable(next);
      TakeSmall(next, lane, limit - 1);
    }
  }

  lemma ItemsGood(batch: seq<Entry>, now: nat)
    requires Small(batch) && |batch| <= FAST_CAP
    ensures GoodEntries(Reply, Items(batch, now)) && Fit(Items(batch, now), Bodies(batch))
  {
    hide IsHex;
  }

  /** A batch of a lane, however large its bodies may be, always fits a reply. */
  lemma ReplyWritten(generation: seq<byte>, lane: Lane, idle: u32, batch: seq<Entry>, now: nat)
    requires Small(batch) && IsHex(generation, GENERATION_HEX) && |batch| <= Cap(lane)
    ensures Reply1(generation, lane, idle, batch, now).Text?
    ensures Reply1(generation, lane, idle, batch, now).batch == Handed(batch)
  {
    hide IsHex, Handed, GoodEntries, Fit, ReplyText;
    ItemsGood(batch, now);
    GenGood(generation);
    ReplyFits(generation, lane == Fast, idle, Items(batch, now), Bodies(batch), TEXT_CAPACITY);
  }

  lemma BatchesMore(spoken: seq<Spoken>, call: nat, said: Said)
    ensures Batches(spoken + [Spoken(call, said)]) == Batches(spoken) + if said.Text? then said.batch else []
  {
    assert (spoken + [Spoken(call, said)])[..|spoken|] == spoken;
  }

  /** Everything but the calls. */
  ghost predicate Core(b: BusState) {
    && Sound(b.queue) && Matched(b) && Linked(b) && Served(b) && Honest(b) && Quiet(b) && Delivered(b)
  }

  lemma ServedSame(b: BusState, r: BusState)
    requires Served(b) && Honest(b) && r.answers == b.answers && r.requests == b.requests && r.inflight == b.inflight
    ensures Served(r) && Honest(r)
  {
    assert forall s :: AnsweredSerial(b, s) <==> AnsweredSerial(r, s);
    assert forall s :: WaitingSerial(b, s) <==> WaitingSerial(r, s);
    hide AnsweredSerial, WaitingSerial;
  }

  lemma KeptQuiet(b: BusState, r: BusState)
    requires Quiet(b) && Kept(b.queue, r.queue)
    requires forall lane :: Parked(r, lane).Some? ==> Parked(b, lane).Some?
    ensures Quiet(r)
  {
  }

  lemma HandDelivered(b: BusState, call: nat, lane: Lane, idle: u32, now: nat)
    requires Sound(b.queue) && Delivered(b)
    ensures Delivered(Hand(b, call, lane, idle, now))
  {
    hide IsHex, Sound, Take, Handed, Reply1, Batches;
    var limit := Min(Cap(lane), POLL_CAPACITY);
    var (queue, batch) := Take(b.queue, lane, limit);
    TakeBatch(b.queue, lane, limit);
    TakeKept(b.queue, lane, limit);
    assert Sendable(b.queue) by {
      forall j | 0 <= j < |b.queue.jobs| && b.queue.jobs[j].phase != Free
        ensures IsHex(b.queue.jobs[j].sequence, SEQUENCE_HEX)
      {
        SequenceIsHex(b.queue, j);
      }
    }
    TakeSmall(b.queue, lane, limit);
    var idle' := if batch == [] then idle else 0;
    ReplyWritten(b.queue.generation, lane, idle', batch, now);
    BatchesMore(b.spoken, call, Reply1(b.queue.generation, lane, idle', batch, now));
  }

  /** Handing a lane's jobs to a call keeps everything, once the lane is no longer parked. */
  lemma HandCore(b: BusState, call: nat, lane: Lane, idle: u32, now: nat)
    requires Core(b)
    ensures Core(Hand(b, call, lane, idle, now))
  {
    hide Sound, Matched, Linked, Served, Honest, Quiet, Delivered, Take, Kept, Reply1;
    var r := Hand(b, call, lane, idle, now);
    TakeBatch(b.queue, lane, Min(Cap(lane), POLL_CAPACITY));
    TakeKept(b.queue, lane, Min(Cap(lane), POLL_CAPACITY));
    KeptMatched(b, r);
    ServedSame(b, r);
    KeptQuiet(b, r);
    HandDelivered(b, call, lane, idle, now);
  }

  lemma UnparkCore(b: BusState, lane: Lane)
    requires Core(b)
    ensures Core(SetParked(b, lane, None))
  {
    hide Sound, Hex, IsHex, Batches, NoneQueued;
    var r := SetParked(b, lane, None);
    KeptMatched(b, r);
    ServedSame(b, r);
  }

  lemma ReleaseParkAgreed(b: BusState, calls: set<nat>, lane: Lane, now: nat)
    requires Core(b) && Open(b, calls)
    ensures Core(ReleasePark(b, lane, now)) && Open(ReleasePark(b, lane, now), calls)
    ensures Parked(ReleasePark(b, lane, now), lane).None?
    ensures ReleasePark(b, lane, now).calls == b.calls
  {
    hide Core, Open, Take, Reply1;
    var call := Parked(b, lane);
    if call.Some? {
      var free := SetParked(b, lane, None);
      UnparkCore(b, lane);
      UnparkOpens(b, calls, lane);
      HandCore(free, call.value, lane, IDLE_MS, now);
      HandOpen(free, calls + {call.value}, call.value, lane, IDLE_MS, now);
      NotIn(b, calls, call.value);
      assert calls + {call.value} - {call.value} == calls;
    }
  }

  lemma NotIn(b: BusState, calls: set<nat>, call: nat)
    requires Open(b, calls) && IsParked(b, call)
    ensures call !in calls
  {
  }

  lemma HandOpen(b: BusState, calls: set<nat>, call: nat, lane: Lane, idle: u32, now: nat)
    requires Open(b, calls) && call in calls
    ensures Open(Hand(b, call, lane, idle, now), calls - {call})
  {
    hide Open, Take, Reply1;
    var (queue, batch) := Take(b.queue, lane, Min(Cap(lane), POLL_CAPACITY));
    OpenSame(b, b.(queue := queue), calls);
    SayCloses(b.(queue := queue), calls, call, Reply1(b.queue.generation, lane, if batch == [] then idle else 0, batch, now));
  }

  // ----- taking a request in ------------------------------------------------------------------------

  lemma AnsweredMore(b: BusState, r: BusState, a: Answered)
    requires r.answers == b.answers + [a]
    ensures forall s :: AnsweredSerial(r, s) <==> AnsweredSerial(b, s) || s == a.serial
  {
    forall s
      ensures AnsweredSerial(r, s) <==> AnsweredSerial(b, s) || s == a.serial
    {
      if AnsweredSerial(b, s) {
        var k :| 0 <= k < |b.answers| && b.answers[k].serial == s;
        assert r.answers[k].serial == s;
      }
      if s == a.serial {
        assert r.answers[|b.answers|].serial == s;
      }
    }
  }

  lemma RefusedServed(b: BusState, asked: Asked, status: u32)
    requires Served(b) && Honest(b) && Linked(b) && asked.ticket.None?
    ensures var r := Answer1(b.(requests := b.requests + [asked]), |b.requests|, asked.id, status, [], None);
      Served(r) && Honest(r) && Linked(r)
  {
    hide Hex;
    var a := Answered(|b.requests|, asked.id, status, [], None);
    var r := Answer1(b.(requests := b.requests + [asked]), |b.requests|, asked.id, status, [], None);
    AnsweredMore(b, r, a);
    assert forall s :: WaitingSerial(r, s) <==> WaitingSerial(b, s);
    assert forall k :: 0 <= k < |b.answers| ==> r.answers[k] == b.answers[k];
    assert !WaitingSerial(b, |b.requests|);
    hide AnsweredSerial, WaitingSerial;
    assert Served(r);
    assert Honest(r);
    hide Ticketed;
    TicketedMore(b.requests, b.queue.nextTicket, asked);
  }

  lemma RefusedCore(b: BusState, asked: Asked, status: u32)
    requires Core(b) && Open(b, {}) && asked.ticket.None?
    ensures var r := Answer1(b.(requests := b.requests + [asked]), |b.requests|, asked.id, status, [], None);
      Core(r) && Open(r, {})
  {
    hide Sound, Matched, Open;
    var r := Answer1(b.(requests := b.requests + [asked]), |b.requests|, asked.id, status, [], None);
    RefusedServed(b, asked, status);
    MatchedSame(b, r);
    OpenSame(b, r, {});
    hide Served, Honest, Linked;
  }

  lemma MatchedSame(b: BusState, r: BusState)
    requires Matched(b) && r.queue == b.queue && r.inflight == b.inflight
    ensures Matched(r)
  {
  }

  /** What a submission that succeeds does to the table. */
  lemma Submitted(q: JobQueue.State, opcode: u16, text: seq<byte>, now: nat)
    requires Submit(q, opcode, text, now).1.Some?
    ensures var k := FirstFree(q.jobs, 0); var lane := LaneFor(opcode);
      && k < |q.jobs| && lane != NoLane && q.jobs[k].phase == Free
      && Submit(q, opcode, text, now) ==
           (Enter(q, k, Fresh(q, opcode, lane, text, now)), Some(Hex(q.nextSequence, SEQUENCE_HEX)))
  {
  }

  lemma SequencesHeld(q: JobQueue.State, sequence: seq<byte>)
    requires Sound(q) && q.nextSequence < SEQUENCES && Holds(q.jobs, sequence)
    ensures sequence != Hex(q.nextSequence, SEQUENCE_HEX)
  {
    hide Hex;
    var j :| 0 <= j < |q.jobs| && q.jobs[j].phase != Free && q.jobs[j].sequence == sequence;
    SequencesDistinct(q.jobs[j].ticket, q.nextSequence);
  }

  lemma EnteredMatched(b: BusState, k: nat, e: Entry, slot: nat, w: Waiting, payload: seq<byte>, now: nat)
    requires Sound(b.queue) && b.queue.nextSequence < SEQUENCES && Matched(b)
    requires k < |b.queue.jobs| && b.queue.jobs[k].phase == Free && e.phase == Queued
    requires slot < |b.inflight| && b.inflight[slot].None?
    requires e.sequence == w.sequence == Hex(b.queue.nextSequence, SEQUENCE_HEX)
    ensures Matched(Entered(b, Enter(b.queue, k, e), slot, w, payload, now))
  {
    hide Hex, Sound;
    var r := Entered(b, Enter(b.queue, k, e), slot, w, payload, now);
    var old_, jobs := b.queue.jobs, r.queue.jobs;
    assert jobs[k] == e && forall j :: 0 <= j < |jobs| && j != k ==> jobs[j] == old_[j];
    assert r.inflight[slot] == Some(w) && forall i :: 0 <= i < |r.inflight| && i != slot ==> r.inflight[i] == b.inflight[i];
    forall i | 0 <= i < |r.inflight| && r.inflight[i].Some?
      ensures Holds(jobs, r.inflight[i].value.sequence)
      ensures i != slot ==> r.inflight[i].value.sequence != w.sequence
    {
      if i != slot {
        var s := b.inflight[i].value.sequence;
        SequencesHeld(b.queue, s);
        var j :| 0 <= j < |old_| && old_[j].phase != Free && old_[j].sequence == s;
        assert jobs[j] == old_[j];
      }
    }
    forall j | 0 <= j < |jobs| && jobs[j].phase != Free
      ensures Waits(r.inflight, jobs[j].sequence)
    {
      if j != k {
        var i :| 0 <= i < |b.inflight| && b.inflight[i].Some? && b.inflight[i].value.sequence == old_[j].sequence;
        assert r.inflight[i] == b.inflight[i];
      }
    }
  }

  lemma EnteredServed(b: BusState, queue: JobQueue.State, slot: nat, w: Waiting, payload: seq<byte>, now: nat)
    requires Served(b) && Honest(b) && Linked(b) && slot < |b.inflight| && b.inflight[slot].None?
    requires w.serial == |b.requests| && queue.nextTicket == b.queue.nextTicket + 1
    requires w.sequence == Hex(b.queue.nextTicket, SEQUENCE_HEX)
    ensures var r := Entered(b, queue, slot, w, payload, now); Served(r) && Honest(r) && Linked(r)
  {
    hide Hex;
    var r := Entered(b, queue, slot, w, payload, now);
    assert r.inflight[slot] == Some(w) && forall i :: 0 <= i < |r.inflight| && i != slot ==> r.inflight[i] == b.inflight[i];
    assert forall s :: AnsweredSerial(r, s) <==> AnsweredSerial(b, s);
    WaitingMore(b, r, slot, w);
    assert !AnsweredSerial(b, |b.requests|);
    hide AnsweredSerial, WaitingSerial, Ticketed;
    TicketedMore(b.requests, b.queue.nextTicket, Asked(w.requestId, Some(b.queue.nextTicket), w.opcode, payload, now));
    assert Linked(r);
    assert Honest(r);
  }

  lemma WaitingMore(b: BusState, r: BusState, slot: nat, w: Waiting)
    requires slot < |b.inflight| && b.inflight[slot].None? && r.inflight == b.inflight[slot := Some(w)]
    ensures forall s :: WaitingSerial(r, s) <==> WaitingSerial(b, s) || s == w.serial
  {
    forall s
      ensures WaitingSerial(r, s) <==> WaitingSerial(b, s) || s == w.serial
    {
      if WaitingSerial(b, s) {
        var i :| 0 <= i < |b.inflight| && b.inflight[i].Some? && b.inflight[i].value.serial == s;
        assert r.inflight[i] == b.inflight[i];
      }
      if s == w.serial {
        assert r.inflight[slot].value.serial == s;
      }
    }
  }

  lemma EnteredCore(b: BusState, requestId: u64, opcode: u16, payload: seq<byte>, now: nat)
    requires Core(b) && b.queue.nextSequence < SEQUENCES
    requires RequestText(opcode, payload).Some? && FreeSlot(b.inflight, 0) < |b.inflight|
    requires Submit(b.queue, opcode, RequestText(opcode, payload).value, now).1.Some?
    ensures var (queue, sequence) := Submit(b.queue, opcode, RequestText(opcode, payload).value, now);
      var r := Entered(b, queue, FreeSlot(b.inflight, 0), Waiting(requestId, opcode, sequence.value, |b.requests|), payload, now);
      Core(SetParked(r, LaneFor(opcode), None))
  {
    hide Hex, IsHex, RequestText, Submit, FreeSlot, FirstFree, Sound, Matched, Served, Honest, Linked, Batches, LaneFor;
    var text := RequestText(opcode, payload).value;
    var (queue, sequence) := Submit(b.queue, opcode, text, now);
    var slot, w := FreeSlot(b.inflight, 0), Waiting(requestId, opcode, sequence.value, |b.requests|);
    var k, lane := FirstFree(b.queue.jobs, 0), LaneFor(opcode);
    Submitted(b.queue, opcode, text, now);
    var e := Fresh(b.queue, opcode, lane, text, now);
    var r := Entered(b, queue, slot, w, payload, now);
    var u := SetParked(r, lane, None);
    TicketIsSequence(b.queue);
    EnterSound(b.queue, k, opcode, lane, text, now);
    EnteredMatched(b, k, e, slot, w, payload, now);
    EnteredServed(b, queue, slot, w, payload, now);
    RequestTextShort(opcode, payload);
    MatchedSame(r, u);
    ServedSame(r, u);
    LinkedSame(r, u);
    assert Delivered(u);
    EnteredQuiet(b, k, e, u, lane);
  }

  lemma LinkedSame(b: BusState, r: BusState)
    requires Linked(b) && r.queue == b.queue && r.inflight == b.inflight && r.requests == b.requests
    ensures Linked(r)
  {
  }

  lemma EnteredQuiet(b: BusState, k: nat, e: Entry, u: BusState, lane: Lane)
    requires Quiet(b) && k < |b.queue.jobs| && lane != NoLane && e.lane == lane
    requires u.queue.jobs == b.queue.jobs[k := e] && Parked(u, lane).None?
    requires forall l :: l != lane && l != NoLane ==> Parked(u, l) == Parked(b, l)
    ensures Quiet(u)
  {
  }

  lemma ReadableAgreed(b: BusState, requestId: u64, opcode: u16, payload: seq<byte>, now: nat)
    requires Agreed(b) && b.queue.nextSequence < SEQUENCES
    ensures Agreed(RelayReadable(b, requestId, opcode, payload, now))
    ensures |RelayReadable(b, requestId, opcode, payload, now).requests| == |b.requests| + 1
  {
    hide Open, RequestText, Submit, FreeSlot, LaneFor, Sound, Matched, Linked, Served, Honest, Quiet, Delivered, Take, Reply1;
    var text := RequestText(opcode, payload);
    if text.None? {
      RefusedCore(b, Asked(requestId, None, opcode, payload, now), STATUS_INVALID);
    } else {
      var slot := FreeSlot(b.inflight, 0);
      var (queue, sequence) := Submit(b.queue, opcode, text.value, now);
      if slot == |b.inflight| || sequence.None? {
        RefusedCore(b, Asked(requestId, None, opcode, payload, now), STATUS_BUSY);
      } else {
        var lane, w := LaneFor(opcode), Waiting(requestId, opcode, sequence.value, |b.requests|);
        var r := Entered(b, queue, slot, w, payload, now);
        EnteredCore(b, requestId, opcode, payload, now);
        OpenSame(b, r, {});
        EnteredReleased(r, lane, now);
      }
    }
  }

  lemma EnteredReleased(b: BusState, lane: Lane, now: nat)
    requires Core(SetParked(b, lane, None)) && Open(b, {})
    ensures Core(ReleasePark(b, lane, now)) && Open(ReleasePark(b, lane, now), {})
    ensures ReleasePark(b, lane, now).requests == b.requests
  {
    hide Core, Open, Take, Reply1;
    var call := Parked(b, lane);
    var free := SetParked(b, lane, None);
    if call.None? {
      assert free == b;
    } else {
      UnparkOpens(b, {}, lane);
      HandCore(free, call.value, lane, IDLE_MS, now);
      HandOpen(free, {} + {call.value}, call.value, lane, IDLE_MS, now);
      assert {} + {call.value} - {call.value} == {};
    }
  }

  // ----- answering ------------------------------------------------------------------------------------

  lemma DrainMatched(b: BusState, i: nat, k: nat)
    requires Sound(b.queue) && Matched(b) && i < |b.inflight| && b.inflight[i].Some?
    requires k < |b.queue.jobs| && b.queue.jobs[k].phase != Free && b.queue.jobs[k].sequence == b.inflight[i].value.sequence
    ensures Matched(b.(queue := Vacate(b.queue, k), inflight := b.inflight[i := None]))
  {
    hide Sound;
    var r := b.(queue := Vacate(b.queue, k), inflight := b.inflight[i := None]);
    var s := b.inflight[i].value.sequence;
    var old_, jobs := b.queue.jobs, r.queue.jobs;
    assert jobs[k] == FREE && forall j :: 0 <= j < |jobs| && j != k ==> jobs[j] == old_[j];
    forall x | 0 <= x < |r.inflight| && r.inflight[x].Some?
      ensures Holds(jobs, r.inflight[x].value.sequence)
    {
      var t := b.inflight[x].value.sequence;
      assert t != s;
      var j :| 0 <= j < |old_| && old_[j].phase != Free && old_[j].sequence == t;
      assert jobs[j] == old_[j];
    }
    forall j | 0 <= j < |jobs| && jobs[j].phase != Free
      ensures Waits(r.inflight, jobs[j].sequence)
    {
      if old_[j].sequence == s {
        OneSlot(b.queue, j, k);
      }
      var x :| 0 <= x < |b.inflight| && b.inflight[x].Some? && b.inflight[x].value.sequence == old_[j].sequence;
      assert r.inflight[x] == b.inflight[x];
    }
  }

  lemma DrainServed(b: BusState, r: BusState, i: nat, a: Answered)
    requires Served(b) && Honest(b) && Linked(b) && i < |b.inflight| && b.inflight[i].Some?
    requires a.serial == b.inflight[i].value.serial && a.requestId == b.inflight[i].value.requestId && a.reported.Some?
    requires |a.body| <= MAX_TEXT_BYTES + 4
    requires a.status == STATUS_BUSY ==> a.reported == Some(STATUS_BUSY)
    requires r.requests == b.requests && r.answers == b.answers + [a] && r.inflight == b.inflight[i := None]
    requires r.queue.nextTicket == b.queue.nextTicket
    ensures Served(r) && Honest(r) && Linked(r)
  {
    hide Hex;
    assert forall x :: 0 <= x < |r.inflight| && x != i ==> r.inflight[x] == b.inflight[x];
    assert forall k :: 0 <= k < |b.answers| ==> r.answers[k] == b.answers[k] && AnsweredSerial(b, b.answers[k].serial);
    AnsweredMore(b, r, a);
    WaitingLess(b, r, i);
    hide AnsweredSerial, WaitingSerial;
    assert Served(r);
    assert Honest(r);
    assert Linked(r);
  }

  lemma WaitingLess(b: BusState, r: BusState, i: nat)
    requires Served(b) && i < |b.inflight| && b.inflight[i].Some? && r.inflight == b.inflight[i := None]
    ensures forall s :: WaitingSerial(r, s) <==> WaitingSerial(b, s) && s != b.inflight[i].value.serial
    ensures WaitingSerial(b, b.inflight[i].value.serial)
  {
    forall s
      ensures WaitingSerial(r, s) <==> WaitingSerial(b, s) && s != b.inflight[i].value.serial
    {
      if WaitingSerial(b, s) && s != b.inflight[i].value.serial {
        var x :| 0 <= x < |b.inflight| && b.inflight[x].Some? && b.inflight[x].value.serial == s;
        assert r.inflight[x] == b.inflight[x];
      }
    }
  }

  lemma DrainOneAgreed(b: BusState, calls: set<nat>, i: nat)
    requires Core(b) && Open(b, calls) && i < |b.inflight|
    ensures Core(DrainOne(b, i)) && Open(DrainOne(b, i), calls) && DrainOne(b, i).requests == b.requests
    ensures DrainOne(b, i).calls == b.calls
  {
    hide Sound, Hex, IsHex, Batches, Matched, Served, Honest, Linked, Find, Open, NoneQueued;
    if b.inflight[i].Some? {
      var w := b.inflight[i].value;
      var result := JobQueue.Answer(b.queue, w.sequence);
      if result.Some? {
        var r := DrainOne(b, i);
        var k := Find(b.queue.jobs, w.sequence, 0);
        VacateSound(b.queue, k);
        DrainMatched(b, i, k);
        MatchedSame(b.(queue := Vacate(b.queue, k), inflight := b.inflight[i := None]), r);
        FinalStatus(b.translate, w.opcode, result.value.0, result.value.1);
        DrainServed(b, r, i, r.answers[|b.answers|]);
        OpenSame(b, r, calls);
        VacateQuiet(b, r, k);
        assert Delivered(r);
      }
    }
  }

  lemma VacateQuiet(b: BusState, r: BusState, k: nat)
    requires Quiet(b) && k < |b.queue.jobs| && r.queue.jobs == b.queue.jobs[k := FREE]
    requires r.parkedFast == b.parkedFast && r.parkedSlow == b.parkedSlow
    ensures Quiet(r)
  {
    assert forall lane :: Parked(r, lane) == Parked(b, lane);
  }

  lemma FinalStatus(translate: (u16, seq<byte>) -> Option<seq<byte>>, opcode: u16, status: u32, body: seq<byte>)
    ensures Final(translate, opcode, status, body).0 == STATUS_BUSY ==> status == STATUS_BUSY
    ensures |Final(translate, opcode, status, body).1| <= MAX_TEXT_BYTES + 4
  {
  }

  lemma {:induction false} DrainAgreed(b: BusState, calls: set<nat>, i: nat)
    requires Core(b) && Open(b, calls) && i <= |b.inflight|
    ensures Core(Drain(b, i)) && Open(Drain(b, i), calls) && Drain(b, i).requests == b.requests
    ensures Drain(b, i).calls == b.calls
    decreases |b.inflight| - i
  {
    hide Core, Open, DrainOne;
    if i < |b.inflight| {
      DrainOneAgreed(b, calls, i);
      DrainAgreed(DrainOne(b, i), calls, i + 1);
    }
  }

  // ----- calls of the script, kept -----------------------------------------------------------------------

  lemma CalledCore(b: BusState, poll: Option<seq<byte>>)
    requires Core(b)
    ensures Core(Called(b, poll))
  {
    hide Sound, Hex, IsHex, Batches, NoneQueued;
    var r := Called(b, poll);
    MatchedSame(b, r);
    ServedSame(b, r);
    LinkedSame(b, r);
  }

  lemma SayCore(b: BusState, call: nat, said: Said)
    requires Core(b) && !said.Text?
    ensures Core(Say(b, call, said))
  {
    hide Sound, Hex, IsHex, Batches, NoneQueued;
    var r := Say(b, call, said);
    MatchedSame(b, r);
    ServedSame(b, r);
    LinkedSame(b, r);
    BatchesMore(b.spoken, call, said);
  }

  lemma ParkCore(b: BusState, lane: Lane, call: nat)
    requires Core(b) && NoneQueued(b.queue.jobs, lane) && lane != NoLane
    ensures Core(SetParked(b, lane, Some(call)))
  {
    hide Sound, Hex, IsHex, Batches, NoneQueued;
    var r := SetParked(b, lane, Some(call));
    MatchedSame(b, r);
    ServedSame(b, r);
    LinkedSame(b, r);
  }

  lemma RefuseCall(b: BusState, poll: Option<seq<byte>>, said: Said)
    requires Agreed(b) && !said.Text?
    ensures Agreed(Say(Called(b, poll), b.calls, said))
  {
    hide Core, Open;
    var called := Called(b, poll);
    CalledCore(b, poll) by {
      AgreedParts(b);
    }
    AgreedParts(b);
    CallOpens(b, poll);
    SayCore(called, b.calls, said);
    SayCloses(called, {b.calls}, b.calls, said);
    assert {b.calls} - {b.calls} == {};
    PartsAgreed(Say(called, b.calls, said));
  }

  lemma AgreedParts(b: BusState)
    requires Agreed(b)
    ensures Core(b) && Open(b, {})
  {
  }

  lemma PartsAgreed(b: BusState)
    requires Core(b) && Open(b, {})
    ensures Agreed(b)
  {
  }

  /** The lane is still empty after the poll already parked on it has been released. */
  lemma ReleaseKeepsEmpty(b: BusState, lane: Lane, now: nat)
    requires NoneQueued(b.queue.jobs, lane)
    ensures NoneQueued(ReleasePark(b, lane, now).queue.jobs, lane)
  {
    hide Take, Reply1;
    TakeKept(b.queue, lane, Min(Cap(lane), POLL_CAPACITY));
  }

  lemma PollAgreed(b: BusState, data: seq<byte>, now: nat)
    requires Agreed(b)
    ensures Agreed(Poll1(b, data, now))
  {
    hide Core, Open, Parse, Take, ReleasePark, Hand, Agreed;
    var m, call := Parse(Poll, data), b.calls;
    AgreedParts(b);
    if m.None? || m.value.fields.gen != Some(b.queue.generation) {
      RefuseCall(b, Some(data), Refused);
    } else {
      var called, lane := Called(b, Some(data)), LaneOf(m.value);
      CalledCore(b, Some(data));
      CallOpens(b, Some(data));
      var limit := Min(Cap(lane), POLL_CAPACITY);
      assert {call} - {call} == {};
      if Take(b.queue, lane, limit).1 != [] {
        HandCore(called, call, lane, 0, now);
        HandOpen(called, {call}, call, lane, 0, now);
        PartsAgreed(Hand(called, call, lane, 0, now));
      } else {
        ReleaseParkAgreed(called, {call}, lane, now);
        TakeEmpty(b.queue, lane, limit);
        ReleaseKeepsEmpty(called, lane, now);
        var free := ReleasePark(called, lane, now);
        ParkCore(free, lane, call);
        ParkCloses(free, {call}, lane, call);
        PartsAgreed(SetParked(free, lane, Some(call)));
      }
    }
  }

  lemma TakeEmpty(q: JobQueue.State, lane: Lane, limit: nat)
    requires limit > 0 && Take(q, lane, limit).1 == []
    ensures NoneQueued(q.jobs, lane)
  {
  }

  lemma ReportCore(b: BusState, data: seq<byte>)
    requires Core(b)
    ensures Core(Called(b, None).(queue := Report1(b.queue, data).0, reports := TakenUp(b, data)))
  {
    hide Sound, Hex, IsHex, Batches, Matched, Linked, Served, Honest, Report1, Quiet, TakenUp;
    var r := Called(b, None).(queue := Report1(b.queue, data).0, reports := TakenUp(b, data));
    ReportSound(b.queue, data);
    ReportKept(b.queue, data);
    KeptMatched(b, r);
    ServedSame(b, r);
    KeptQuiet(b, r);
    assert Delivered(r);
  }

  lemma ReportAgreed(b: BusState, data: seq<byte>)
    requires Agreed(b)
    ensures Agreed(Report2(b, data))
  {
    hide Core, Open, Report1, Drain, Agreed, TakenUp;
    var call := b.calls;
    var (queue, ok) := Report1(b.queue, data);
    var applied := Called(b, None).(queue := queue, reports := TakenUp(b, data));
    AgreedParts(b);
    ReportCore(b, data);
    CallOpens(b, None);
    OpenSame(Called(b, None), applied, {call});
    assert {call} - {call} == {};
    var last := if ok then Drain(applied, 0) else applied;
    if ok {
      DrainAgreed(applied, {call}, 0);
    }
    var said := if ok then Acknowledged else Refused;
    SayCore(last, call, said);
    SayCloses(last, {call}, call, said);
    PartsAgreed(Say(last, call, said));
  }

  // ----- whole runs ----------------------------------------------------------------------------------------

  datatype Callback =
    | Readable(requestId: u64, opcode: u16, payload: seq<byte>, now: nat)
    | PollCall(data: seq<byte>, now: nat)
    | ReportCall(data: seq<byte>)
    | OtherCall
    | IdleTimer(fast: bool, now: nat)

  function Next(b: BusState, c: Callback): (r: BusState) {
    match c
    case Readable(requestId, opcode, payload, now) => RelayReadable(b, requestId, opcode, payload, now)
    case PollCall(data, now) => Poll1(b, data, now)
    case ReportCall(data) => Report2(b, data)
    case OtherCall => Say(Called(b, None), b.calls, Acknowledged)
    case IdleTimer(fast, now) => ReleasePark(b, if fast then Fast else Slow, now)
  }

  function Run(b: BusState, cs: seq<Callback>): (r: BusState) {
    if cs == [] then b else Next(Run(b, cs[..|cs| - 1]), cs[|cs| - 1])
  }

  lemma NextAgreed(b: BusState, c: Callback)
    requires Agreed(b) && |b.requests| + 1 < SEQUENCES
    ensures Agreed(Next(b, c))
  {
    hide Agreed, RelayReadable, Poll1, Report2, ReleasePark;
    match c {
      case Readable(requestId, opcode, payload, now) =>
        RoomLeft(b);
        ReadableAgreed(b, requestId, opcode, payload, now);
      case PollCall(data, now) => PollAgreed(b, data, now);
      case ReportCall(data) => ReportAgreed(b, data);
      case OtherCall => RefuseCall(b, None, Acknowledged);
      case IdleTimer(fast, now) =>
        var lane := if fast then Fast else Slow;
        AgreedParts(b);
        ReleaseParkAgreed(b, {}, lane, now);
        PartsAgreed(ReleasePark(b, lane, now));
    }
  }

  lemma RoomLeft(b: BusState)
    requires Agreed(b) && |b.requests| + 1 < SEQUENCES
    ensures b.queue.nextSequence < SEQUENCES
  {
    hide Sound;
    TicketIsSequence(b.queue);
  }

  lemma NextRequests(b: BusState, c: Callback)
    ensures |Next(b, c).requests| <= |b.requests| + 1
  {
    hide Take, Reply1, Submit, RequestText, FreeSlot, LaneFor, Parse, Report1;
    if c.ReportCall? {
      var (queue, ok) := Report1(b.queue, c.data);
      DrainRequests(Called(b, None).(queue := queue, reports := TakenUp(b, c.data)), 0);
    }
  }

  lemma {:induction false} DrainRequests(b: BusState, i: nat)
    requires i <= |b.inflight|
    ensures Drain(b, i).requests == b.requests
    decreases |b.inflight| - i
  {
    if i < |b.inflight| {
      DrainRequests(DrainOne(b, i), i + 1);
    }
  }

  /**
   * After every sequence of callbacks: waiting requests and jobs correspond one
   * to one; each request received has been answered once or is still waiting;
   * a lane with a parked poll has nothing queued; every job marked as handed out
   * was in a reply; and every call of the script was completed once or is parked.
   */
  lemma {:induction false} RunAgreed(generation: seq<byte>, translate: (u16, seq<byte>) -> Option<seq<byte>>, cs: seq<Callback>)
    requires IsHex(generation, GENERATION_HEX) && |cs| + 1 < SEQUENCES
    ensures Agreed(Run(Start(generation, translate), cs))
    ensures |Run(Start(generation, translate), cs).requests| <= |cs|
    decreases |cs|
  {
    hide Agreed, Next, IsHex;
    if cs == [] {
      StartAgreed(generation, translate);
    } else {
      var front := cs[..|cs| - 1];
      RunAgreed(generation, translate, front);
      NextAgreed(Run(Start(generation, translate), front), cs[|cs| - 1]);
      NextRequests(Run(Start(generation, translate), front), cs[|cs| - 1]);
    }
  }
}

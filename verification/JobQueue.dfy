/** The job queue between the relay and the KWin script, as a value with its history. */
module JobQueue {
  import opened Bytes
  import opened Numerals
  import opened Envelope

  const MAX_JOBS: nat := 128
  const DEADLINE_MS: nat := 2000
  const SEQUENCES: nat := 0x1_0000_0000_0000_0000

  datatype Lane = Fast | Slow | NoLane

  /** ksd_kwin_lane_for. */
  function LaneFor(opcode: u16): (lane: Lane) {
    if opcode in {0x2011, 0x2014, 0x2020, 0x2021, 0x2022, 0x2023, 0x2025, 0x2026, 0x2027, 0x2028, 0x2029, 0x202a,
                  0x202d, 0x2050, 0x2051} then Fast
    else if opcode in {0x2010, 0x2013} then Slow
    else NoLane
  }

  function Cap(lane: Lane): (n: nat) {
    match lane case Fast => FAST_CAP case Slow => SLOW_CAP case NoLane => 0
  }

  datatype Phase = Free | Queued | Dispatched | Finished

  datatype Entry = Entry(
    phase: Phase, sequence: seq<byte>, opcode: u16, lane: Lane, deadline: nat, ticket: nat,
    status: u32, body: seq<byte>, reply: seq<byte>)

  const FREE := Entry(Free, [], 0, NoLane, 0, 0, 0, [], [])

  datatype Sent = Sent(ticket: nat, lane: Lane)

  /** The table and counters, and what has happened: handed out, finished, and dropped unsent, by ticket. */
  datatype State = State(
    jobs: seq<Entry>, generation: seq<byte>, nextSequence: nat, nextTicket: nat,
    sent: seq<Sent>, finished: seq<nat>, dropped: seq<nat>)

  function Start(generation: seq<byte>): (q: State) {
    State(seq(MAX_JOBS, _ => FREE), generation, 1, 1, [], [], [])
  }

  // ----- the four things that happen to a slot -----------------------------------

  function Fresh(q: State, opcode: u16, lane: Lane, body: seq<byte>, now: nat): (e: Entry) {
    Entry(Queued, Hex(q.nextSequence, SEQUENCE_HEX), opcode, lane, now + DEADLINE_MS, q.nextTicket, 0, body, [])
  }

  function Enter(q: State, i: nat, e: Entry): (r: State)
    requires i < |q.jobs|
  {
    q.(jobs := q.jobs[i := e], nextSequence := q.nextSequence + 1, nextTicket := q.nextTicket + 1)
  }

  function Send(q: State, i: nat): (r: State)
    requires i < |q.jobs|
  {
    var e := q.jobs[i];
    q.(jobs := q.jobs[i := e.(phase := Dispatched)], sent := q.sent + [Sent(e.ticket, e.lane)])
  }

  function Settle(q: State, i: nat, status: u32, reply: seq<byte>): (r: State)
    requires i < |q.jobs|
  {
    var e := q.jobs[i];
    var answered := if reply == [] then e.reply else reply;
    q.(jobs := q.jobs[i := e.(phase := Finished, status := status, reply := answered)],
       finished := q.finished + [e.ticket])
  }

  function Vacate(q: State, i: nat): (r: State)
    requires i < |q.jobs|
  {
    q.(jobs := q.jobs[i := FREE],
       dropped := if q.jobs[i].phase == Queued then q.dropped + [q.jobs[i].ticket] else q.dropped)
  }

  // ----- what is kept ---------------------------------------------------------------

  /** Every occupied slot has its own ticket, and its sequence spells it. */
  ghost predicate Named(q: State) {
    && |q.jobs| == MAX_JOBS && 1 <= q.nextTicket == q.nextSequence <= SEQUENCES
    && (forall i :: 0 <= i < |q.jobs| && q.jobs[i].phase != Free ==>
          1 <= q.jobs[i].ticket < q.nextTicket && q.jobs[i].sequence == Hex(q.jobs[i].ticket, SEQUENCE_HEX))
    && (forall i, j :: 0 <= i < j < |q.jobs| && q.jobs[i].phase != Free && q.jobs[j].phase != Free ==>
          q.jobs[i].ticket != q.jobs[j].ticket)
  }

  ghost predicate Precedes(a: Sent, b: Sent) {
    a.ticket != b.ticket && (a.lane == b.lane ==> a.ticket < b.ticket)
  }

  /** Within a lane jobs are handed out in the order they were submitted, none twice. */
  ghost predicate Ordered(q: State) {
    && (forall k :: 0 <= k < |q.sent| ==> 1 <= q.sent[k].ticket < q.nextTicket)
    && (forall k, l :: 0 <= k < l < |q.sent| ==> Precedes(q.sent[k], q.sent[l]))
    && (forall k, i :: 0 <= k < |q.sent| && 0 <= i < |q.jobs| && q.jobs[i].phase == Queued ==>
          Precedes(q.sent[k], Sent(q.jobs[i].ticket, q.jobs[i].lane)))
  }

  predicate WasSent(q: State, t: nat) {
    exists k :: 0 <= k < |q.sent| && q.sent[k].ticket == t
  }

  /** A job is finished at most once and only after it was handed out. */
  ghost predicate Traced(q: State) {
    && (forall k :: 0 <= k < |q.finished| ==> WasSent(q, q.finished[k]))
    && (forall k, l :: 0 <= k < l < |q.finished| ==> q.finished[k] != q.finished[l])
    && (forall i :: 0 <= i < |q.jobs| ==>
          && (q.jobs[i].phase == Dispatched ==> WasSent(q, q.jobs[i].ticket) && q.jobs[i].ticket !in q.finished)
          && (q.jobs[i].phase == Finished ==> q.jobs[i].ticket in q.finished))
  }

  /** What was dropped was never handed out. */
  ghost predicate Unsent(q: State) {
    forall k :: 0 <= k < |q.dropped| ==>
      && 1 <= q.dropped[k] < q.nextTicket && !WasSent(q, q.dropped[k])
      && forall i :: 0 <= i < |q.jobs| && q.jobs[i].phase != Free ==> q.jobs[i].ticket != q.dropped[k]
  }

  /** Nothing is answered before it is finished. */
  ghost predicate Blank(q: State) {
    forall i :: 0 <= i < |q.jobs| && q.jobs[i].phase != Finished ==> q.jobs[i].reply == []
  }

  ghost predicate Sound(q: State) {
    Named(q) && Ordered(q) && Traced(q) && Unsent(q) && Blank(q)
  }

  lemma StartSound(generation: seq<byte>)
    ensures Sound(Start(generation))
  {
  }

  lemma EnterSound(q: State, i: nat, opcode: u16, lane: Lane, body: seq<byte>, now: nat)
    requires Sound(q) && i < |q.jobs| && q.jobs[i].phase == Free && q.nextSequence < SEQUENCES
    ensures Sound(Enter(q, i, Fresh(q, opcode, lane, body, now)))
  {
    hide Hex;
    var r := Enter(q, i, Fresh(q, opcode, lane, body, now));
    assert Named(r);
    assert Ordered(r);
    SentSame(q, r);
    assert Traced(r);
    assert Unsent(r);
  }

  lemma SentSame(q: State, r: State)
    requires q.sent == r.sent
    ensures forall t :: WasSent(q, t) <==> WasSent(r, t)
  {
  }

  lemma SentMore(q: State, r: State, s: Sent)
    requires r.sent == q.sent + [s]
    ensures forall t :: WasSent(r, t) <==> WasSent(q, t) || t == s.ticket
  {
    forall t
      ensures WasSent(r, t) <==> WasSent(q, t) || t == s.ticket
    {
      if WasSent(q, t) {
        var k :| 0 <= k < |q.sent| && q.sent[k].ticket == t;
        assert r.sent[k].ticket == t;
      }
      if t == s.ticket {
        assert r.sent[|q.sent|].ticket == t;
      }
    }
  }

  /** The oldest queued job of its lane, if it is one. */
  ghost predicate IsOldest(jobs: seq<Entry>, lane: Lane, i: nat) {
    && i < |jobs| && jobs[i].phase == Queued && jobs[i].lane == lane
    && forall j :: 0 <= j < |jobs| && jobs[j].phase == Queued && jobs[j].lane == lane ==> jobs[i].ticket <= jobs[j].ticket
  }

  lemma SendOrdered(q: State, i: nat, lane: Lane)
    requires Named(q) && Ordered(q) && IsOldest(q.jobs, lane, i)
    ensures Ordered(Send(q, i))
  {
    hide Hex;
    var r := Send(q, i);
    var s := Sent(q.jobs[i].ticket, q.jobs[i].lane);
    assert forall k :: 0 <= k < |q.sent| ==> r.sent[k] == q.sent[k] && Precedes(q.sent[k], s);
    assert r.sent[|q.sent|] == s;
    forall j | 0 <= j < |r.jobs| && r.jobs[j].phase == Queued
      ensures Precedes(s, Sent(r.jobs[j].ticket, r.jobs[j].lane))
    {
      assert j != i && r.jobs[j] == q.jobs[j];
    }
  }

  lemma SendSound(q: State, i: nat, lane: Lane)
    requires Sound(q) && IsOldest(q.jobs, lane, i)
    ensures Sound(Send(q, i))
  {
    hide Hex, Ordered;
    var r := Send(q, i);
    assert Named(r);
    SendOrdered(q, i, lane);
    SendTraced(q, i);
  }

  lemma SendTraced(q: State, i: nat)
    requires Sound(q) && i < |q.jobs| && q.jobs[i].phase == Queued
    ensures Traced(Send(q, i)) && Unsent(Send(q, i))
  {
    hide Hex, WasSent;
    var r := Send(q, i);
    var s := Sent(q.jobs[i].ticket, q.jobs[i].lane);
    SentMore(q, r, s);
    assert s.ticket !in q.finished by {
      NeverSent(q, i);
    }
    assert forall k :: 0 <= k < |q.finished| ==> WasSent(q, q.finished[k]);
    assert forall k :: 0 <= k < |q.dropped| ==> q.dropped[k] != s.ticket;
  }

  lemma NeverSent(q: State, i: nat)
    requires Sound(q) && i < |q.jobs| && q.jobs[i].phase == Queued
    ensures !WasSent(q, q.jobs[i].ticket) && q.jobs[i].ticket !in q.finished
  {
    hide Hex;
    var t := q.jobs[i].ticket;
    assert forall k :: 0 <= k < |q.sent| ==> Precedes(q.sent[k], Sent(t, q.jobs[i].lane));
  }

  lemma SettleSound(q: State, i: nat, status: u32, reply: seq<byte>)
    requires Sound(q) && i < |q.jobs| && q.jobs[i].phase == Dispatched
    ensures Sound(Settle(q, i, status, reply))
  {
    hide Hex, WasSent;
    var r := Settle(q, i, status, reply);
    SentSame(q, r);
    assert Named(r);
    assert Ordered(r);
    assert Unsent(r);
    SettleTraced(q, i, status, reply);
  }

  lemma SettleTraced(q: State, i: nat, status: u32, reply: seq<byte>)
    requires Named(q) && Traced(q) && i < |q.jobs| && q.jobs[i].phase == Dispatched
    ensures Traced(Settle(q, i, status, reply))
  {
    hide Hex, WasSent;
    var r := Settle(q, i, status, reply);
    SentSame(q, r);
    var t := q.jobs[i].ticket;
    assert forall k :: 0 <= k < |q.finished| ==> r.finished[k] == q.finished[k];
    assert r.finished[|q.finished|] == t;
    forall j | 0 <= j < |r.jobs|
      ensures r.jobs[j].phase == Dispatched ==> WasSent(r, r.jobs[j].ticket) && r.jobs[j].ticket !in r.finished
      ensures r.jobs[j].phase == Finished ==> r.jobs[j].ticket in r.finished
    {
      if j != i {
        assert r.jobs[j] == q.jobs[j];
      }
    }
  }

  lemma VacateSound(q: State, i: nat)
    requires Sound(q) && i < |q.jobs| && q.jobs[i].phase != Free
    ensures Sound(Vacate(q, i))
  {
    hide Hex, WasSent;
    var r := Vacate(q, i);
    SentSame(q, r);
    assert Named(r);
    assert Ordered(r);
    assert Traced(r);
    VacateUnsent(q, i);
  }

  lemma VacateUnsent(q: State, i: nat)
    requires Sound(q) && i < |q.jobs| && q.jobs[i].phase != Free
    ensures Unsent(Vacate(q, i))
  {
    hide Hex, WasSent;
    var r := Vacate(q, i);
    SentSame(q, r);
    if q.jobs[i].phase == Queued {
      NeverSent(q, i);
    }
    forall k | 0 <= k < |r.dropped|
      ensures 1 <= r.dropped[k] < r.nextTicket && !WasSent(r, r.dropped[k])
      ensures forall j :: 0 <= j < |r.jobs| && r.jobs[j].phase != Free ==> r.jobs[j].ticket != r.dropped[k]
    {
      assert k < |q.dropped| || r.dropped[k] == q.jobs[i].ticket;
    }
  }

  // ----- the operations -----------------------------------------------------------------

  function FirstFree(jobs: seq<Entry>, i: nat): (k: nat)
    requires i <= |jobs|
    ensures i <= k <= |jobs| && (k < |jobs| ==> jobs[k].phase == Free)
    ensures forall j :: i <= j < k ==> jobs[j].phase != Free
    decreases |jobs| - i
  {
    if i == |jobs| || jobs[i].phase == Free then i else FirstFree(jobs, i + 1)
  }

  /** ksd_kwin_queue_submit. */
  function Submit(q: State, opcode: u16, body: seq<byte>, now: nat): (r: (State, Option<seq<byte>>)) {
    var lane, k := LaneFor(opcode), FirstFree(q.jobs, 0);
    if lane == NoLane || k == |q.jobs| then (q, None)
    else
      var e := Fresh(q, opcode, lane, body, now);
      (Enter(q, k, e), Some(e.sequence))
  }

  /** The oldest queued job of the lane among the first k, or the length when there is none. */
  function Oldest(jobs: seq<Entry>, lane: Lane, k: nat): (i: nat)
    requires k <= |jobs|
    ensures i == |jobs| || (i < k && jobs[i].phase == Queued && jobs[i].lane == lane)
    ensures forall j :: 0 <= j < k && jobs[j].phase == Queued && jobs[j].lane == lane ==>
              i < |jobs| && jobs[i].ticket <= jobs[j].ticket
  {
    if k == 0 then |jobs|
    else
      var i := Oldest(jobs, lane, k - 1);
      var e := jobs[k - 1];
      if e.phase == Queued && e.lane == lane && (i == |jobs| || e.ticket < jobs[i].ticket) then k - 1 else i
  }

  /** ksd_kwin_queue_take, the batch as it is handed over. */
  function Take(q: State, lane: Lane, limit: nat): (r: (State, seq<Entry>))
    decreases limit
  {
    var i := Oldest(q.jobs, lane, |q.jobs|);
    if limit == 0 || i == |q.jobs| then (q, [])
    else
      var next := Send(q, i);
      var (end, more) := Take(next, lane, limit - 1);
      (end, [next.jobs[i]] + more)
  }

  function Min(a: nat, b: nat): (r: nat) {
    if a < b then a else b
  }

  predicate NoneQueued(jobs: seq<Entry>, lane: Lane) {
    forall i :: 0 <= i < |jobs| ==> !(jobs[i].phase == Queued && jobs[i].lane == lane)
  }

  function Handed(batch: seq<Entry>): (r: seq<Sent>)
    ensures |r| == |batch|
  {
    if batch == [] then [] else [Sent(batch[0].ticket, batch[0].lane)] + Handed(batch[1..])
  }

  predicate OfLane(batch: seq<Entry>, lane: Lane) {
    forall k :: 0 <= k < |batch| ==> batch[k].lane == lane && batch[k].phase == Dispatched
  }

  /**
   * A batch is no longer than asked and of one lane, and is what is added to the
   * record of jobs sent; it stops short only when the lane is empty.
   */
  lemma {:induction false} TakeBatch(q: State, lane: Lane, limit: nat)
    requires Sound(q)
    ensures var (r, batch) := Take(q, lane, limit);
      && Sound(r) && |batch| <= limit && OfLane(batch, lane)
      && r == q.(jobs := r.jobs, sent := q.sent + Handed(batch))
      && (|batch| < limit ==> NoneQueued(r.jobs, lane))
    decreases limit
  {
    hide Sound, Hex, Oldest, Handed;
    var i := Oldest(q.jobs, lane, |q.jobs|);
    if limit > 0 && i < |q.jobs| {
      SendSound(q, i, lane);
      var next := Send(q, i);
      TakeBatch(next, lane, limit - 1);
      var (r, more) := Take(next, lane, limit - 1);
      HandedFirst(q.sent, next.jobs[i], more);
    } else {
      HandedNone(q.sent);
    }
  }

  lemma HandedNone(sent: seq<Sent>)
    ensures sent + Handed([]) == sent
  {
  }

  lemma HandedFirst(sent: seq<Sent>, e: Entry, more: seq<Entry>)
    ensures sent + Handed([e] + more) == sent + [Sent(e.ticket, e.lane)] + Handed(more)
  {
    assert ([e] + more)[1..] == more;
  }

  /** The first occupied slot of that sequence, or the length. */
  function Find(jobs: seq<Entry>, sequence: seq<byte>, i: nat): (k: nat)
    requires i <= |jobs|
    ensures i <= k <= |jobs| && (k < |jobs| ==> jobs[k].phase != Free && jobs[k].sequence == sequence)
    ensures forall j :: i <= j < k ==> jobs[j].phase == Free || jobs[j].sequence != sequence
    decreases |jobs| - i
  {
    if i == |jobs| || (jobs[i].phase != Free && jobs[i].sequence == sequence) then i
    else Find(jobs, sequence, i + 1)
  }

  function Phase1(q: State, sequence: seq<byte>): (p: Phase) {
    var k := Find(q.jobs, sequence, 0);
    if k == |q.jobs| then Free else q.jobs[k].phase
  }

  /** ksd_kwin_queue_complete. */
  function Complete1(q: State, generation: seq<byte>, sequence: seq<byte>, status: u32, reply: seq<byte>): (r: (State, bool)) {
    if generation != q.generation || Phase1(q, sequence) != Dispatched then (q, false)
    else (Settle(q, Find(q.jobs, sequence, 0), status, reply), true)
  }

  function CompleteAll(q: State, entries: seq<Item>, bodies: seq<seq<byte>>): (r: (State, bool))
    requires |entries| == |bodies| && forall k :: 0 <= k < |entries| ==> entries[k].Done?
    decreases |entries|
  {
    if entries == [] then (q, true)
    else
      var (next, ok) := Complete1(q, q.generation, entries[0].sequence, entries[0].status, bodies[0]);
      if !ok then (next, false) else CompleteAll(next, entries[1..], bodies[1..])
  }

  predicate AllDispatched(q: State, entries: seq<Item>)
    requires forall k :: 0 <= k < |entries| ==> entries[k].Done?
  {
    forall k :: 0 <= k < |entries| ==> Phase1(q, entries[k].sequence) == Dispatched
  }

  /** ksd_kwin_queue_report, on the envelope it was sent. */
  function Report1(q: State, data: seq<byte>): (r: (State, bool)) {
    var m := Parse(Report, data);
    if m.None? || m.value.fields.gen != Some(q.generation) then (q, false)
    else
      ReportShape(data);
      var (entries, bodies) := (m.value.fields.entries, m.value.bodies);
      if !AllDispatched(q, entries) then (q, false) else CompleteAll(q, entries, bodies)
  }

  /** ksd_kwin_queue_release: any occupied slot. */
  function Release(q: State, sequence: seq<byte>): (r: State) {
    var k := Find(q.jobs, sequence, 0);
    if k == |q.jobs| then q else Vacate(q, k)
  }

  /** ksd_kwin_queue_expire over the first k slots. */
  function Expire(q: State, now: nat, k: nat): (r: State)
    requires k <= |q.jobs|
    ensures |r.jobs| == |q.jobs|
  {
    if k == 0 then q
    else
      var r := Expire(q, now, k - 1);
      var e := q.jobs[k - 1];
      if e.phase == Queued && e.deadline <= now then Vacate(r, k - 1) else r
  }

  /** Expiry frees exactly the queued jobs past their deadline, and touches nothing else. */
  lemma {:induction false} ExpireExact(q: State, now: nat, k: nat)
    requires Sound(q) && k <= |q.jobs|
    ensures var r := Expire(q, now, k);
      && Sound(r) && r.sent == q.sent && r.finished == q.finished
      && forall i :: 0 <= i < |q.jobs| ==>
           r.jobs[i] == if i < k && q.jobs[i].phase == Queued && q.jobs[i].deadline <= now then FREE else q.jobs[i]
    ensures var r := Expire(q, now, k);
      && q.dropped <= r.dropped
      && (forall i :: 0 <= i < k && q.jobs[i].phase == Queued && q.jobs[i].deadline <= now ==> q.jobs[i].ticket in r.dropped)
    decreases k
  {
    hide Sound;
    if k > 0 {
      ExpireExact(q, now, k - 1);
      var r := Expire(q, now, k - 1);
      if q.jobs[k - 1].phase == Queued && q.jobs[k - 1].deadline <= now {
        VacateSound(r, k - 1);
      }
    }
  }

  /** Releasing frees the slot of the sequence, in whatever state it is, and records a job that was never handed out. */
  lemma ReleaseExact(q: State, sequence: seq<byte>)
    requires Sound(q)
    ensures var r := Release(q, sequence);
      && Sound(r) && |r.jobs| == |q.jobs| && r.sent == q.sent && r.finished == q.finished
      && (forall i :: 0 <= i < |q.jobs| ==>
            r.jobs[i] == if q.jobs[i].phase != Free && q.jobs[i].sequence == sequence then FREE else q.jobs[i])
      && (forall i :: 0 <= i < |q.jobs| && q.jobs[i].phase == Queued && q.jobs[i].sequence == sequence ==>
            r.dropped == q.dropped + [q.jobs[i].ticket])
      && (Phase1(q, sequence) != Queued ==> r.dropped == q.dropped)
  {
    hide Sound;
    var k := Find(q.jobs, sequence, 0);
    if k < |q.jobs| {
      VacateSound(q, k);
      forall i | 0 <= i < |q.jobs| && q.jobs[i].phase != Free && q.jobs[i].sequence == sequence
        ensures i == k
      {
        OneSlot(q, i, k);
      }
    }
  }

  lemma OneSlot(q: State, i: nat, j: nat)
    requires Sound(q) && i < |q.jobs| && j < |q.jobs| && q.jobs[i].phase != Free && q.jobs[j].phase != Free
    requires q.jobs[i].sequence == q.jobs[j].sequence
    ensures i == j
  {
    hide Hex;
    WordSize();
    HexInjective(q.jobs[i].ticket, q.jobs[j].ticket, SEQUENCE_HEX);
  }

  // ----- reports, all or nothing -----------------------------------------------------------

  lemma FindSame(a: seq<Entry>, b: seq<Entry>, sequence: seq<byte>, i: nat)
    requires |a| == |b| && i <= |a|
    requires forall j :: 0 <= j < |a| ==> a[j].sequence == b[j].sequence && (a[j].phase == Free <==> b[j].phase == Free)
    ensures Find(a, sequence, i) == Find(b, sequence, i)
  {
    var k, l := Find(a, sequence, i), Find(b, sequence, i);
  }

  /** Completing one job changes the phase of that sequence and of no other. */
  lemma Completed(q: State, sequence: seq<byte>, status: u32, reply: seq<byte>, other: seq<byte>)
    requires Phase1(q, sequence) == Dispatched
    ensures var r := Complete1(q, q.generation, sequence, status, reply).0;
      && r.generation == q.generation
      && Phase1(r, other) == if other == sequence then Finished else Phase1(q, other)
  {
    var r := Complete1(q, q.generation, sequence, status, reply).0;
    FindSame(q.jobs, r.jobs, other, 0);
  }

  predicate Distinct(entries: seq<Item>)
    requires forall k :: 0 <= k < |entries| ==> entries[k].Done?
  {
    forall k, l :: 0 <= k < l < |entries| ==> entries[k].sequence != entries[l].sequence
  }

  lemma {:induction false} FinishedFails(q: State, entries: seq<Item>, bodies: seq<seq<byte>>, j: nat)
    requires |entries| == |bodies| && forall k :: 0 <= k < |entries| ==> entries[k].Done?
    requires j < |entries| && Phase1(q, entries[j].sequence) == Finished
    ensures !CompleteAll(q, entries, bodies).1
    decreases |entries|
  {
    hide Phase1, Settle;
    var (next, ok) := Complete1(q, q.generation, entries[0].sequence, entries[0].status, bodies[0]);
    if ok {
      Completed(q, entries[0].sequence, entries[0].status, bodies[0], entries[j].sequence);
      FinishedFails(next, entries[1..], bodies[1..], j - 1);
    }
  }

  lemma {:induction false} CompleteAllExact(q: State, entries: seq<Item>, bodies: seq<seq<byte>>)
    requires |entries| == |bodies| && forall k :: 0 <= k < |entries| ==> entries[k].Done?
    requires AllDispatched(q, entries)
    ensures CompleteAll(q, entries, bodies).1 <==> Distinct(entries)
    decreases |entries|
  {
    hide Phase1, Settle;
    if entries != [] {
      var first := entries[0].sequence;
      var (next, ok) := Complete1(q, q.generation, first, entries[0].status, bodies[0]);
      forall k | 0 <= k < |entries|
        ensures Phase1(next, entries[k].sequence) == if entries[k].sequence == first then Finished else Dispatched
      {
        Completed(q, first, entries[0].status, bodies[0], entries[k].sequence);
      }
      if j :| 1 <= j < |entries| && entries[j].sequence == first {
        FinishedFails(next, entries[1..], bodies[1..], j - 1);
      } else {
        CompleteAllExact(next, entries[1..], bodies[1..]);
        DistinctTail(entries);
      }
    }
  }

  lemma DistinctTail(entries: seq<Item>)
    requires entries != [] && forall k :: 0 <= k < |entries| ==> entries[k].Done?
    requires forall j :: 1 <= j < |entries| ==> entries[j].sequence != entries[0].sequence
    ensures Distinct(entries) <==> Distinct(entries[1..])
  {
    var t := entries[1..];
    if Distinct(t) {
      forall k, l | 0 <= k < l < |entries|
        ensures entries[k].sequence != entries[l].sequence
      {
        if k > 0 {
          assert t[k - 1].sequence != t[l - 1].sequence;
        }
      }
    }
    if Distinct(entries) {
      forall k, l | 0 <= k < l < |t|
        ensures t[k].sequence != t[l].sequence
      {
        assert entries[k + 1].sequence != entries[l + 1].sequence;
      }
    }
  }

  lemma {:induction false} CompleteAllSound(q: State, entries: seq<Item>, bodies: seq<seq<byte>>)
    requires Sound(q)
    requires |entries| == |bodies| && forall k :: 0 <= k < |entries| ==> entries[k].Done?
    ensures var (r, ok) := CompleteAll(q, entries, bodies);
      && Sound(r) && r.sent == q.sent && r.dropped == q.dropped && q.finished <= r.finished
      && r.nextTicket == q.nextTicket && r.generation == q.generation
      && |r.finished| - |q.finished| <= |entries|
      && (ok ==> |r.finished| - |q.finished| == |entries|)
    decreases |entries|
  {
    hide Sound, Phase1;
    if entries != [] && Phase1(q, entries[0].sequence) == Dispatched {
      PhaseAt(q, entries[0].sequence);
      SettleSound(q, Find(q.jobs, entries[0].sequence, 0), entries[0].status, bodies[0]);
      CompleteAllSound(Settle(q, Find(q.jobs, entries[0].sequence, 0), entries[0].status, bodies[0]), entries[1..], bodies[1..]);
    }
  }

  lemma PhaseAt(q: State, sequence: seq<byte>)
    ensures var k := Find(q.jobs, sequence, 0); Phase1(q, sequence) == if k == |q.jobs| then Free else q.jobs[k].phase
  {
  }

  /** The whole of a report: either every entry is applied or the queue is as it was. */
  ghost predicate AllOrNothing(q: State, data: seq<byte>) {
    var (r, ok) := Report1(q, data);
    if ok
    then Parse(Report, data).Some? && |r.finished| == |q.finished| + |Parse(Report, data).value.fields.entries|
    else r == q
  }

  predicate Passes(q: State, data: seq<byte>) {
    var m := Parse(Report, data);
    m.Some? && m.value.fields.gen == Some(q.generation)
    && (ReportShape(data); AllDispatched(q, m.value.fields.entries))
  }

  /**
   * A report is applied whole, or not at all, exactly when it fails the first
   * check or names no job twice.
   */
  lemma ReportAllOrNothing(q: State, data: seq<byte>)
    requires Sound(q)
    ensures AllOrNothing(q, data) <==>
      !Passes(q, data) || (ReportShape(data); Distinct(Parse(Report, data).value.fields.entries))
    ensures Report1(q, data).1 <==> Passes(q, data) && (ReportShape(data); Distinct(Parse(Report, data).value.fields.entries))
  {
    hide Sound, Parse, Complete1, Distinct;
    if Passes(q, data) {
      ReportShape(data);
      var m := Parse(Report, data).value;
      var es, bs := m.fields.entries, m.bodies;
      CompleteAllExact(q, es, bs);
      CompleteAllSound(q, es, bs);
      FirstApplied(q, es, bs);
    }
  }

  lemma FirstApplied(q: State, entries: seq<Item>, bodies: seq<seq<byte>>)
    requires Sound(q) && entries != []
    requires |entries| == |bodies| && forall k :: 0 <= k < |entries| ==> entries[k].Done?
    requires AllDispatched(q, entries)
    ensures CompleteAll(q, entries, bodies).0 != q
  {
    hide Sound;
    assert Phase1(q, entries[0].sequence) == Dispatched;
    var next := Complete1(q, q.generation, entries[0].sequence, entries[0].status, bodies[0]).0;
    SettleSound(q, Find(q.jobs, entries[0].sequence, 0), entries[0].status, bodies[0]);
    assert |next.finished| == |q.finished| + 1;
    CompleteAllSound(next, entries[1..], bodies[1..]);
  }

  /** A report that names one dispatched job twice: the first entry is applied and the report is refused. */
  lemma TwiceNamed(q: State, d: Item)
    requires Sound(q) && d.Done? && Good(d) && 2 * d.length <= MAX_TEXT_BYTES && IsHex(q.generation, GENERATION_HEX)
    requires Phase1(q, d.sequence) == Dispatched
    ensures var body := seq(d.length, _ => 0x61);
      var data := Print([Gen(q.generation)] + [d, d], Concat([body, body]));
      var (r, ok) := Report1(q, data);
      !ok && r != q && Phase1(r, d.sequence) == Finished
  {
    hide Sound, Parse, Print, Concat, Good, Complete1, IsHex;
    var body := seq(d.length, _ => 0x61);
    var es, bs := [d, d], [body, body];
    var data := Print([Gen(q.generation)] + es, Concat(bs));
    TwoEntries(d);
    GenGood(q.generation);
    ReportRoundTrip(q.generation, es, bs);
    assert AllDispatched(q, es);
    CompleteTwice(q, d, body);
    CompleteAllSound(q, es, bs);
    FirstApplied(q, es, bs);
  }

  lemma GenGood(token: seq<byte>)
    requires IsHex(token, GENERATION_HEX)
    ensures Good(Gen(token))
  {
  }

  lemma TwoEntries(d: Item)
    requires d.Done? && Good(d) && 2 * d.length <= MAX_TEXT_BYTES
    ensures GoodEntries(Report, [d, d])
  {
    hide Good;
    var es := [d, d];
    assert es[..1] == [d] && es[..1][..0] == [] && Declared([]) == 0;
    assert Declared(es[..1]) == d.length;
  }

  lemma CompleteTwice(q: State, d: Item, body: seq<byte>)
    requires d.Done? && Phase1(q, d.sequence) == Dispatched
    ensures var (r, ok) := CompleteAll(q, [d, d], [body, body]); !ok && Phase1(r, d.sequence) == Finished
  {
    hide Phase1, Settle;
    var (next, ok) := Complete1(q, q.generation, d.sequence, d.status, body);
    Completed(q, d.sequence, d.status, body, d.sequence);
    assert [d, d][1..] == [d] && [body, body][1..] == [body];
    var (last, ok2) := Complete1(next, next.generation, d.sequence, d.status, body);
    assert !ok2 && last == next;
    assert CompleteAll(next, [d], [body]) == (next, false);
  }

  // ----- whole runs ------------------------------------------------------------------------

  datatype Op =
    | Submitting(opcode: u16, body: seq<byte>, now: nat)
    | Taking(lane: Lane, capacity: nat)
    | Completing(generation: seq<byte>, sequence: seq<byte>, status: u32, reply: seq<byte>)
    | Reporting(data: seq<byte>)
    | Releasing(sequence: seq<byte>)
    | Expiring(now: nat)

  function Apply(q: State, op: Op): (r: State) {
    match op
    case Submitting(opcode, body, now) => Submit(q, opcode, body, now).0
    case Taking(lane, capacity) => Take(q, lane, Min(Cap(lane), capacity)).0
    case Completing(generation, sequence, status, reply) => Complete1(q, generation, sequence, status, reply).0
    case Reporting(data) => Report1(q, data).0
    case Releasing(sequence) => Release(q, sequence)
    case Expiring(now) => Expire(q, now, |q.jobs|)
  }

  /** The history only grows, and tickets are never handed out again. */
  ghost predicate Extends(q: State, r: State) {
    && q.sent <= r.sent && q.finished <= r.finished && q.dropped <= r.dropped
    && q.nextTicket <= r.nextTicket && r.generation == q.generation
  }

  lemma {:induction false} ExpireExtends(q: State, now: nat, k: nat)
    requires k <= |q.jobs|
    ensures Extends(q, Expire(q, now, k)) && Expire(q, now, k).nextTicket == q.nextTicket
    decreases k
  {
    if k > 0 {
      ExpireExtends(q, now, k - 1);
    }
  }

  lemma ReportSound(q: State, data: seq<byte>)
    requires Sound(q)
    ensures Sound(Report1(q, data).0) && Extends(q, Report1(q, data).0)
    ensures Report1(q, data).0.nextTicket == q.nextTicket && Report1(q, data).0.sent == q.sent
  {
    hide Sound, Parse, CompleteAll;
    if Passes(q, data) {
      ReportShape(data);
      var m := Parse(Report, data).value;
      CompleteAllSound(q, m.fields.entries, m.bodies);
    }
  }

  /** Every operation keeps what is promised, as long as there are sequence numbers left. */
  lemma ApplySound(q: State, op: Op)
    requires Sound(q) && (op.Submitting? ==> q.nextSequence < SEQUENCES)
    ensures Sound(Apply(q, op)) && Extends(q, Apply(q, op))
  {
    hide Sound, Hex, Parse, Take, Settle, Report1, Expire;
    match op {
      case Submitting(opcode, body, now) =>
        var k := FirstFree(q.jobs, 0);
        if LaneFor(opcode) != NoLane && k < |q.jobs| {
          EnterSound(q, k, opcode, LaneFor(opcode), body, now);
        }
      case Taking(lane, capacity) => TakeBatch(q, lane, Min(Cap(lane), capacity));
      case Completing(generation, sequence, status, reply) =>
        if Complete1(q, generation, sequence, status, reply).1 {
          SettleSound(q, Find(q.jobs, sequence, 0), status, reply);
          SettleExtends(q, Find(q.jobs, sequence, 0), status, reply);
        }
      case Reporting(data) => ReportSound(q, data);
      case Releasing(sequence) =>
        var k := Find(q.jobs, sequence, 0);
        if k < |q.jobs| {
          VacateSound(q, k);
        }
      case Expiring(now) =>
        ExpireExact(q, now, |q.jobs|);
        ExpireExtends(q, now, |q.jobs|);
    }
  }

  lemma SettleExtends(q: State, i: nat, status: u32, reply: seq<byte>)
    requires i < |q.jobs|
    ensures Extends(q, Settle(q, i, status, reply))
  {
  }

  function RunOps(q: State, ops: seq<Op>): (r: State) {
    if ops == [] then q else Apply(RunOps(q, ops[..|ops| - 1]), ops[|ops| - 1])
  }

  function Submissions(ops: seq<Op>): (n: nat) {
    if ops == [] then 0 else Submissions(ops[..|ops| - 1]) + if ops[|ops| - 1].Submitting? then 1 else 0
  }

  /**
   * Over every run that makes fewer than 2^64 submissions: tickets and sequences
   * are distinct, each lane is served in order of submission, nothing is handed
   * out twice, finished twice, or finished before it was handed out, and what
   * is dropped was never handed out.
   */
  lemma {:induction false} RunSound(generation: seq<byte>, ops: seq<Op>)
    requires Submissions(ops) < SEQUENCES
    ensures Sound(RunOps(Start(generation), ops))
    ensures RunOps(Start(generation), ops).nextTicket <= 1 + Submissions(ops)
    ensures RunOps(Start(generation), ops).generation == generation
    decreases |ops|
  {
    hide Sound, Apply;
    if ops == [] {
      StartSound(generation);
    } else {
      var front, op := ops[..|ops| - 1], ops[|ops| - 1];
      RunSound(generation, front);
      var q := RunOps(Start(generation), front);
      TicketIsSequence(q);
      ApplySound(q, op);
      ApplyTicket(q, op);
    }
  }

  lemma TicketIsSequence(q: State)
    requires Sound(q)
    ensures q.nextTicket == q.nextSequence
  {
    hide Hex, Ordered, Traced, Unsent;
  }

  lemma ApplyTicket(q: State, op: Op)
    requires Sound(q)
    ensures Apply(q, op).nextTicket <= q.nextTicket + if op.Submitting? then 1 else 0
  {
    hide Sound, Hex, Parse, Take, Settle, Report1, Expire;
    match op {
      case Taking(lane, capacity) => TakeBatch(q, lane, Min(Cap(lane), capacity));
      case Completing(generation, sequence, status, reply) =>
        if Complete1(q, generation, sequence, status, reply).1 {
          SettleTicket(q, Find(q.jobs, sequence, 0), status, reply);
        }
      case Reporting(data) => ReportSound(q, data);
      case Expiring(now) => ExpireExtends(q, now, |q.jobs|);
      case _ =>
    }
  }

  lemma SettleTicket(q: State, i: nat, status: u32, reply: seq<byte>)
    requires i < |q.jobs|
    ensures Settle(q, i, status, reply).nextTicket == q.nextTicket
  {
  }

  /** The sequences two submissions are given differ. */
  lemma SequencesDistinct(a: nat, b: nat)
    requires 1 <= a < b < SEQUENCES
    ensures Hex(a, SEQUENCE_HEX) != Hex(b, SEQUENCE_HEX)
  {
    WordSize();
    if Hex(a, SEQUENCE_HEX) == Hex(b, SEQUENCE_HEX) {
      HexInjective(a, b, SEQUENCE_HEX);
    }
  }

  lemma WordSize()
    ensures Power16(SEQUENCE_HEX) == SEQUENCES
  {
    assert Power16(4) == 0x1_0000;
    assert Power16(8) == 0x1_0000_0000;
    assert Power16(12) == 0x1_0000_0000_0000;
  }

  /** Over any run from any point, what is issued next is issued to nobody else before or after. */
  lemma {:induction false} LaterTicket(q: State, ops: seq<Op>)
    requires Sound(q) && q.nextTicket + Submissions(ops) < SEQUENCES
    ensures Sound(RunOps(q, ops)) && Extends(q, RunOps(q, ops))
    ensures RunOps(q, ops).nextTicket <= q.nextTicket + Submissions(ops)
    decreases |ops|
  {
    hide Sound, Apply;
    if ops != [] {
      var front, op := ops[..|ops| - 1], ops[|ops| - 1];
      LaterTicket(q, front);
      var r := RunOps(q, front);
      TicketIsSequence(r);
      ApplySound(r, op);
      ApplyTicket(r, op);
    }
  }

  /** A sequence issued now is never issued again, whatever happens in between. */
  lemma IssuedOnce(q: State, opcode: u16, body: seq<byte>, now: nat, ops: seq<Op>,
                   opcode': u16, body': seq<byte>, now': nat)
    requires Sound(q) && q.nextTicket + Submissions(ops) + 2 < SEQUENCES
    requires Submit(q, opcode, body, now).1.Some?
    requires var r := RunOps(Submit(q, opcode, body, now).0, ops); Submit(r, opcode', body', now').1.Some?
    ensures var r := RunOps(Submit(q, opcode, body, now).0, ops);
      Submit(q, opcode, body, now).1 != Submit(r, opcode', body', now').1
  {
    hide Sound, Hex;
    var p := Submit(q, opcode, body, now).0;
    TicketIsSequence(q);
    ApplySound(q, Submitting(opcode, body, now));
    LaterTicket(p, ops);
    var r := RunOps(p, ops);
    TicketIsSequence(r);
    SequencesDistinct(q.nextTicket, r.nextTicket) by {
      AtLeastOne(q);
    }
  }

  lemma AtLeastOne(q: State)
    requires Sound(q)
    ensures 1 <= q.nextTicket
  {
    hide Hex;
  }

  /** ksd_kwin_queue_result: what a finished job was answered with. */
  function Answer(q: State, sequence: seq<byte>): (r: Option<(u32, seq<byte>)>) {
    var k := Find(q.jobs, sequence, 0);
    if k == |q.jobs| || q.jobs[k].phase != Finished then None else Some((q.jobs[k].status, q.jobs[k].reply))
  }

  lemma CompletedAnswer(q: State, sequence: seq<byte>, status: u32, reply: seq<byte>, other: seq<byte>)
    requires Blank(q) && Phase1(q, sequence) == Dispatched
    ensures var r := Complete1(q, q.generation, sequence, status, reply).0;
      Answer(r, other) == if other == sequence then Some((status, reply)) else Answer(q, other)
  {
    var r := Complete1(q, q.generation, sequence, status, reply).0;
    FindSame(q.jobs, r.jobs, other, 0);
  }

  lemma {:induction false} CompleteAllAnswers(q: State, entries: seq<Item>, bodies: seq<seq<byte>>, other: seq<byte>)
    requires Sound(q) && |entries| == |bodies| && forall k :: 0 <= k < |entries| ==> entries[k].Done?
    requires CompleteAll(q, entries, bodies).1
    ensures var r := CompleteAll(q, entries, bodies).0;
      && (forall k :: 0 <= k < |entries| ==> Answer(r, entries[k].sequence) == Some((entries[k].status, bodies[k])))
      && ((forall k :: 0 <= k < |entries| ==> entries[k].sequence != other) ==> Answer(r, other) == Answer(q, other))
    decreases |entries|
  {
    hide Sound, Phase1, Settle, Answer;
    if entries != [] {
      var first := entries[0].sequence;
      var next := Complete1(q, q.generation, first, entries[0].status, bodies[0]).0;
      BlankOf(q);
      PhaseAt(q, first);
      SettleSound(q, Find(q.jobs, first, 0), entries[0].status, bodies[0]);
      CompletedAnswer(q, first, entries[0].status, bodies[0], other);
      CompletedAnswer(q, first, entries[0].status, bodies[0], first);
      Completed(q, first, entries[0].status, bodies[0], first);
      CompleteAllAnswers(next, entries[1..], bodies[1..], other);
      forall j | 1 <= j < |entries|
        ensures entries[j].sequence != first
      {
        if entries[j].sequence == first {
          FinishedFails(next, entries[1..], bodies[1..], j - 1);
        }
      }
      CompleteAllAnswers(next, entries[1..], bodies[1..], first);
      var r := CompleteAll(q, entries, bodies).0;
      forall k | 0 <= k < |entries|
        ensures Answer(r, entries[k].sequence) == Some((entries[k].status, bodies[k]))
      {
        if k > 0 {
          assert entries[1..][k - 1] == entries[k] && bodies[1..][k - 1] == bodies[k];
        }
      }
    }
  }

  lemma BlankOf(q: State)
    requires Sound(q)
    ensures Blank(q)
  {
  }

  ghost predicate Answered(r: State, m: Message) {
    && |m.fields.entries| == |m.bodies|
    && forall k :: 0 <= k < |m.bodies| ==>
         m.fields.entries[k].Done?
         && Answer(r, m.fields.entries[k].sequence) == Some((m.fields.entries[k].status, m.bodies[k]))
  }

  ghost predicate Names(m: Message, sequence: seq<byte>) {
    exists k :: 0 <= k < |m.fields.entries| && m.fields.entries[k].Done? && m.fields.entries[k].sequence == sequence
  }

  /** A report that is accepted answers each job it names with its own status and body, and no other job. */
  lemma ReportAnswers(q: State, data: seq<byte>, other: seq<byte>)
    requires Sound(q) && Report1(q, data).1
    ensures Parse(Report, data).Some? && Answered(Report1(q, data).0, Parse(Report, data).value)
    ensures !Names(Parse(Report, data).value, other) ==> Answer(Report1(q, data).0, other) == Answer(q, other)
  {
    hide Sound, Parse, CompleteAll, Answer;
    ReportShape(data);
    var m := Parse(Report, data).value;
    CompleteAllAnswers(q, m.fields.entries, m.bodies, other);
  }
}

/** Whose each job is, and whose words each answer: what the daemon hands out and passes back, over every run. */
module BusHistory {
  import opened Bytes
  import opened Numerals
  import opened Envelope
  import opened JobQueue
  import opened Bus

  // ----- jobs ---------------------------------------------------------------------------

  /** The job is the request's: its operation, its text, its lane, and two seconds from its arrival. */
  predicate JobOf(a: Asked, ticket: nat, e: Entry) {
    && a.ticket == Some(ticket) && e.opcode == a.opcode && RequestText(a.opcode, a.payload) == Some(e.body)
    && e.lane == LaneFor(a.opcode) && e.deadline == a.at + 2000
  }

  ghost predicate Owned(requests: seq<Asked>, e: Entry) {
    exists q :: 0 <= q < |requests| && JobOf(requests[q], e.ticket, e)
  }

  ghost predicate AllOwned(requests: seq<Asked>, jobs: seq<Entry>) {
    forall j :: 0 <= j < |jobs| && jobs[j].phase != Free ==> Owned(requests, jobs[j])
  }

  /** How long the script is given, when the deadline is two seconds after the request. */
  function Left(at: nat, now: nat): (ms: u32) {
    if at + 2000 > now then (at + 2000 - now) % 0x1_0000_0000 else 0
  }

  /** The job as the script reads it: the request's sequence, operation, text and remaining time. */
  ghost predicate Handed1(a: Asked, sent: Sent, i: Item, body: seq<byte>, now: nat) {
    && a.ticket == Some(sent.ticket) && sent.lane == LaneFor(a.opcode)
    && RequestText(a.opcode, a.payload) == Some(body) && |body| < TEXT_CAPACITY
    && i == Job(Hex(sent.ticket, SEQUENCE_HEX), a.opcode, Left(a.at, now), |body|)
  }

  ghost predicate HandedOne(requests: seq<Asked>, sent: Sent, i: Item, body: seq<byte>, now: nat) {
    exists q :: 0 <= q < |requests| && Handed1(requests[q], sent, i, body, now)
  }

  /** A poll reply reads as jobs of requests, those of its batch, in order. */
  ghost predicate Carries(requests: seq<Asked>, generation: seq<byte>, said: Said)
    requires said.Text?
  {
    var m := Parse(Reply, said.text);
    && m.Some? && m.value.fields.gen == Some(generation)
    && |m.value.fields.entries| == |m.value.bodies| == |said.batch|
    && forall k :: 0 <= k < |said.batch| ==>
         && HandedOne(requests, said.batch[k], m.value.fields.entries[k], m.value.bodies[k], said.at)
         && m.value.fields.lane == Some(said.batch[k].lane == Fast)
  }

  ghost predicate AllCarry(requests: seq<Asked>, generation: seq<byte>, spoken: seq<Spoken>) {
    forall k :: 0 <= k < |spoken| && spoken[k].said.Text? ==> Carries(requests, generation, spoken[k].said)
  }

  lemma OwnedMore(requests: seq<Asked>, more: seq<Asked>, e: Entry)
    requires Owned(requests, e) && requests <= more
    ensures Owned(more, e)
  {
    hide JobOf;
    var q :| 0 <= q < |requests| && JobOf(requests[q], e.ticket, e);
    assert more[q] == requests[q];
  }

  lemma AllOwnedMore(requests: seq<Asked>, more: seq<Asked>, jobs: seq<Entry>)
    requires AllOwned(requests, jobs) && requests <= more
    ensures AllOwned(more, jobs)
  {
    hide Owned;
    forall j | 0 <= j < |jobs| && jobs[j].phase != Free
      ensures Owned(more, jobs[j])
    {
      OwnedMore(requests, more, jobs[j]);
    }
  }

  lemma CarryMore(requests: seq<Asked>, more: seq<Asked>, generation: seq<byte>, spoken: seq<Spoken>)
    requires AllCarry(requests, generation, spoken) && requests <= more
    ensures AllCarry(more, generation, spoken)
  {
    hide Parse, Handed1;
    forall k | 0 <= k < |spoken| && spoken[k].said.Text?
      ensures Carries(more, generation, spoken[k].said)
    {
      var said := spoken[k].said;
      var m := Parse(Reply, said.text).value;
      forall i | 0 <= i < |said.batch|
        ensures HandedOne(more, said.batch[i], m.fields.entries[i], m.bodies[i], said.at)
      {
        assert HandedOne(requests, said.batch[i], m.fields.entries[i], m.bodies[i], said.at);
        var q :| 0 <= q < |requests| && Handed1(requests[q], said.batch[i], m.fields.entries[i], m.bodies[i], said.at);
        assert more[q] == requests[q];
      }
    }
  }

  /** A change of phase, status or reply does not change whose job it is. */
  lemma OwnedPhase(requests: seq<Asked>, e: Entry, f: Entry)
    requires Owned(requests, e)
    requires f.ticket == e.ticket && f.opcode == e.opcode && f.body == e.body && f.lane == e.lane && f.deadline == e.deadline
    ensures Owned(requests, f)
  {
    var q :| 0 <= q < |requests| && JobOf(requests[q], e.ticket, e);
    assert JobOf(requests[q], f.ticket, f);
  }

  // ----- handing out ---------------------------------------------------------------------

  /** Handing out moves jobs on, each the same job as before, and a batch is made of jobs. */
  ghost predicate BatchOf(requests: seq<Asked>, batch: seq<Entry>) {
    forall k :: 0 <= k < |batch| ==>
      Owned(requests, batch[k]) && batch[k].sequence == Hex(batch[k].ticket, SEQUENCE_HEX)
  }

  lemma {:induction false} TakeOwned(requests: seq<Asked>, q: JobQueue.State, lane: Lane, limit: nat)
    requires AllOwned(requests, q.jobs) && Sound(q)
    ensures AllOwned(requests, Take(q, lane, limit).0.jobs) && BatchOf(requests, Take(q, lane, limit).1)
    decreases limit
  {
    hide Oldest, Owned, Hex, Sound;
    var i := Oldest(q.jobs, lane, |q.jobs|);
    if limit > 0 && i < |q.jobs| {
      var next := Send(q, i);
      OwnedPhase(requests, q.jobs[i], next.jobs[i]);
      SequenceOf(q, i);
      SendSound(q, i, lane);
      assert AllOwned(requests, next.jobs);
      TakeOwned(requests, next, lane, limit - 1);
    }
  }

  lemma SequenceOf(q: JobQueue.State, i: nat)
    requires Sound(q) && i < |q.jobs| && q.jobs[i].phase != Free
    ensures q.jobs[i].sequence == Hex(q.jobs[i].ticket, SEQUENCE_HEX)
  {
    hide Hex;
  }

  lemma {:induction false} HandedAt(batch: seq<Entry>, k: nat)
    requires k < |batch|
    ensures Handed(batch)[k] == Sent(batch[k].ticket, batch[k].lane)
    decreases |batch|
  {
    if k > 0 {
      HandedAt(batch[1..], k - 1);
    }
  }

  lemma OneHanded(requests: seq<Asked>, e: Entry, now: nat)
    requires Owned(requests, e) && e.sequence == Hex(e.ticket, SEQUENCE_HEX) && |e.body| < TEXT_CAPACITY
    ensures HandedOne(requests, Sent(e.ticket, e.lane), Job(e.sequence, e.opcode, Budget(e, now), |e.body|), e.body, now)
  {
    hide RequestText, Hex, LaneFor;
    var q :| 0 <= q < |requests| && JobOf(requests[q], e.ticket, e);
    assert Handed1(requests[q], Sent(e.ticket, e.lane), Job(e.sequence, e.opcode, Budget(e, now), |e.body|), e.body, now);
  }

  lemma ReplyCarries(requests: seq<Asked>, generation: seq<byte>, lane: Lane, idle: u32, batch: seq<Entry>, now: nat)
    requires Small(batch) && IsHex(generation, GENERATION_HEX) && |batch| <= Cap(lane) && BatchOf(requests, batch) && OfLane(batch, lane)
    ensures Reply1(generation, lane, idle, batch, now).Text?
    ensures Carries(requests, generation, Reply1(generation, lane, idle, batch, now))
  {
    hide IsHex, GoodEntries, Fit, ReplyText, Parse, HandedOne, Owned, Hex;
    ReplyWritten(generation, lane, idle, batch, now);
    ItemsGood(batch, now);
    GenGood(generation);
    ReplyRoundTrip(generation, lane == Fast, idle, Items(batch, now), Bodies(batch));
    forall k | 0 <= k < |batch|
      ensures HandedOne(requests, Handed(batch)[k], Items(batch, now)[k], Bodies(batch)[k], now)
      ensures Handed(batch)[k].lane == lane
    {
      HandedAt(batch, k);
      OneHanded(requests, batch[k], now);
    }
  }

  // ----- reports ----------------------------------------------------------------------------

  /** The first k + 1 entries name different jobs. */
  predicate DistinctTo(entries: seq<Item>, k: nat) {
    && k < |entries| && (forall i :: 0 <= i <= k ==> entries[i].Done?)
    && forall i, j :: 0 <= i < j <= k ==> entries[i].sequence != entries[j].sequence
  }

  /** Of the reports taken up, the r-th gives the job this status and body in its k-th entry, before it names any job twice. */
  ghost predicate Applied(reports: seq<seq<byte>>, generation: seq<byte>, r: nat, k: nat,
                          sequence: seq<byte>, status: u32, body: seq<byte>)
  {
    r < |reports|
    && var m := Parse(Report, reports[r]);
       && m.Some? && m.value.fields.gen == Some(generation) && |m.value.bodies| == |m.value.fields.entries|
       && DistinctTo(m.value.fields.entries, k)
       && m.value.fields.entries[k].sequence == sequence && m.value.fields.entries[k].status == status
       && m.value.bodies[k] == body
  }

  ghost predicate SaidOf(reports: seq<seq<byte>>, generation: seq<byte>, sequence: seq<byte>, status: u32, body: seq<byte>) {
    exists r: nat, k: nat :: Applied(reports, generation, r, k, sequence, status, body)
  }

  /** Every finished job holds what a report said of it. */
  ghost predicate AllSaid(reports: seq<seq<byte>>, q: JobQueue.State) {
    forall s :: Answer(q, s).Some? ==> SaidOf(reports, q.generation, s, Answer(q, s).value.0, Answer(q, s).value.1)
  }

  /** The sequence is that of a job once submitted that is neither waiting to be handed out nor with the script. */
  ghost predicate Past(q: JobQueue.State, sequence: seq<byte>) {
    && (exists t: nat :: 1 <= t < q.nextTicket && sequence == Hex(t, SEQUENCE_HEX))
    && Phase1(q, sequence) != Queued && Phase1(q, sequence) != Dispatched
  }

  /** What a report has said is in the past, and was said once. */
  ghost predicate SaidOnce(reports: seq<seq<byte>>, q: JobQueue.State) {
    && (forall r: nat, k: nat, s, status, body :: Applied(reports, q.generation, r, k, s, status, body) ==> Past(q, s))
    && (forall r: nat, k: nat, r': nat, k': nat, s, status, body, status', body' ::
          (Applied(reports, q.generation, r, k, s, status, body) && Applied(reports, q.generation, r', k', s, status', body'))
          ==> r == r' && k == k')
  }

  /** What is applied of a report, from a given queue: jobs with the script, up to the first that is named again. */
  predicate GoodTo(q: JobQueue.State, entries: seq<Item>, k: nat) {
    DistinctTo(entries, k) && forall i :: 0 <= i <= k ==> Phase1(q, entries[i].sequence) == Dispatched
  }

  ghost predicate Untold(q: JobQueue.State, entries: seq<Item>, other: seq<byte>) {
    forall k: nat :: GoodTo(q, entries, k) ==> entries[k].sequence != other
  }

  lemma GoodTail(q: JobQueue.State, next: JobQueue.State, entries: seq<Item>, k: nat)
    requires 0 < k < |entries| && entries[0].Done? && Phase1(q, entries[0].sequence) == Dispatched
    requires forall s :: Phase1(next, s) == if s == entries[0].sequence then Finished else Phase1(q, s)
    ensures GoodTo(q, entries, k) <==> GoodTo(next, entries[1..], k - 1)
  {
    hide Phase1;
    var t := entries[1..];
    if GoodTo(next, t, k - 1) {
      forall i | 0 <= i <= k
        ensures entries[i].Done? && Phase1(q, entries[i].sequence) == Dispatched
        ensures i > 0 ==> entries[i].sequence != entries[0].sequence
      {
        if i > 0 {
          assert t[i - 1] == entries[i];
        }
      }
      forall i, j | 0 <= i < j <= k
        ensures entries[i].sequence != entries[j].sequence
      {
        if i > 0 {
          assert t[i - 1].sequence != t[j - 1].sequence;
        }
      }
    }
    if GoodTo(q, entries, k) {
      forall i | 0 <= i <= k - 1
        ensures t[i].Done? && Phase1(next, t[i].sequence) == Dispatched
      {
        assert t[i] == entries[i + 1];
      }
      forall i, j | 0 <= i < j <= k - 1
        ensures t[i].sequence != t[j].sequence
      {
        assert entries[i + 1].sequence != entries[j + 1].sequence;
      }
    }
  }

  /** Exactly the entries up to the first that is named again are applied, each to its own job. */
  lemma {:induction false} CompleteAllTells(q: JobQueue.State, entries: seq<Item>, bodies: seq<seq<byte>>)
    requires Sound(q) && |entries| == |bodies| && forall k :: 0 <= k < |entries| ==> entries[k].Done?
    ensures var r := CompleteAll(q, entries, bodies).0;
      && (forall k: nat :: GoodTo(q, entries, k) ==> Answer(r, entries[k].sequence) == Some((entries[k].status, bodies[k])))
      && (forall other :: Untold(q, entries, other) ==>
            Phase1(r, other) == Phase1(q, other) && Answer(r, other) == Answer(q, other))
    decreases |entries|
  {
    hide Sound, Phase1, Settle, Answer, Find;
    if entries != [] && Phase1(q, entries[0].sequence) == Dispatched {
      var first := entries[0].sequence;
      var next := Complete1(q, q.generation, first, entries[0].status, bodies[0]).0;
      BlankOf(q);
      PhaseAt(q, first);
      SettleSound(q, Find(q.jobs, first, 0), entries[0].status, bodies[0]);
      forall s
        ensures Phase1(next, s) == if s == first then Finished else Phase1(q, s)
        ensures Answer(next, s) == if s == first then Some((entries[0].status, bodies[0])) else Answer(q, s)
      {
        Completed(q, first, entries[0].status, bodies[0], s);
        CompletedAnswer(q, first, entries[0].status, bodies[0], s);
      }
      var es, bs := entries[1..], bodies[1..];
      var r := CompleteAll(next, es, bs).0;
      CompleteAllTells(next, es, bs);
      assert GoodTo(q, entries, 0);
      assert Untold(next, es, first);
      forall k: nat | GoodTo(q, entries, k)
        ensures Answer(r, entries[k].sequence) == Some((entries[k].status, bodies[k]))
      {
        if k > 0 {
          GoodTail(q, next, entries, k);
          assert es[k - 1] == entries[k] && bs[k - 1] == bodies[k];
        }
      }
      forall other | Untold(q, entries, other)
        ensures Phase1(r, other) == Phase1(q, other) && Answer(r, other) == Answer(q, other)
      {
        forall k: nat | GoodTo(next, es, k)
          ensures es[k].sequence != other
        {
          GoodTail(q, next, entries, k + 1);
          assert es[k] == entries[k + 1];
        }
      }
    }
  }

  // ----- what the queue does to what was said ---------------------------------------------

  /** Nothing past comes back, and nothing new is answered. */
  ghost predicate Moves(q: JobQueue.State, r: JobQueue.State) {
    && r.generation == q.generation
    && (forall s :: Past(q, s) ==> Past(r, s))
    && (forall s :: Answer(r, s).Some? ==> Answer(r, s) == Answer(q, s))
  }

  lemma MovesSaid(reports: seq<seq<byte>>, q: JobQueue.State, r: JobQueue.State)
    requires AllSaid(reports, q) && SaidOnce(reports, q) && Moves(q, r)
    ensures AllSaid(reports, r) && SaidOnce(reports, r)
  {
    hide Applied, Answer, Past;
  }

  /** The same jobs, some of the queued ones now dispatched. */
  predicate Dispatches(q: JobQueue.State, r: JobQueue.State) {
    && |r.jobs| == |q.jobs| && r.generation == q.generation && r.nextTicket == q.nextTicket
    && forall j :: 0 <= j < |q.jobs| ==>
         r.jobs[j] == q.jobs[j] || (q.jobs[j].phase == Queued && r.jobs[j] == q.jobs[j].(phase := Dispatched))
  }

  lemma {:induction false} TakeDispatches(q: JobQueue.State, lane: Lane, limit: nat)
    ensures Dispatches(q, Take(q, lane, limit).0)
    decreases limit
  {
    hide Oldest;
    var i := Oldest(q.jobs, lane, |q.jobs|);
    if limit > 0 && i < |q.jobs| {
      TakeDispatches(Send(q, i), lane, limit - 1);
    }
  }

  lemma DispatchesMoves(q: JobQueue.State, r: JobQueue.State)
    requires Dispatches(q, r)
    ensures Moves(q, r)
  {
    hide Hex;
    forall s
      ensures Past(q, s) ==> Past(r, s)
      ensures Answer(r, s) == Answer(q, s)
    {
      FindSame(q.jobs, r.jobs, s, 0);
    }
  }

  lemma EnterMoves(q: JobQueue.State, i: nat, opcode: u16, lane: Lane, body: seq<byte>, now: nat)
    requires Sound(q) && i < |q.jobs| && q.jobs[i].phase == Free && q.nextSequence < SEQUENCES
    ensures Moves(q, Enter(q, i, Fresh(q, opcode, lane, body, now)))
  {
    hide Hex;
    var r := Enter(q, i, Fresh(q, opcode, lane, body, now));
    var fresh_ := r.jobs[i].sequence;
    forall s
      ensures Past(q, s) ==> Past(r, s)
      ensures Answer(r, s).Some? ==> Answer(r, s) == Answer(q, s)
    {
      EnteredFind(q, r, i, s);
      if Past(q, s) {
        var t: nat :| 1 <= t < q.nextTicket && s == Hex(t, SEQUENCE_HEX);
        SequencesDistinct(t, q.nextSequence);
      }
    }
  }

  /** A sequence that is not the new job's is found where it was. */
  lemma EnteredFind(q: JobQueue.State, r: JobQueue.State, i: nat, s: seq<byte>)
    requires |r.jobs| == |q.jobs| && i < |q.jobs| && q.jobs[i].phase == Free && r.jobs == q.jobs[i := r.jobs[i]]
    requires r.jobs[i].phase == Queued
    ensures r.jobs[i].sequence != s ==> Find(r.jobs, s, 0) == Find(q.jobs, s, 0)
    ensures r.jobs[i].sequence == s ==>
      Find(r.jobs, s, 0) == i || (Find(r.jobs, s, 0) < i && Find(r.jobs, s, 0) == Find(q.jobs, s, 0))
  {
    assert forall j :: 0 <= j < |q.jobs| && j != i ==> r.jobs[j] == q.jobs[j];
  }

  lemma VacateMoves(q: JobQueue.State, k: nat)
    requires Sound(q) && k < |q.jobs| && q.jobs[k].phase != Free
    ensures Moves(q, Vacate(q, k))
  {
    hide Hex;
    var r := Vacate(q, k);
    assert r.jobs[k] == FREE && forall j :: 0 <= j < |q.jobs| && j != k ==> r.jobs[j] == q.jobs[j];
    forall s
      ensures Past(q, s) ==> Past(r, s)
      ensures Answer(r, s).Some? ==> Answer(r, s) == Answer(q, s)
    {
      VacatedFind(q, k, s);
    }
  }

  /** Every other job is found where it was, and the one that left is not found. */
  lemma VacatedFind(q: JobQueue.State, k: nat, s: seq<byte>)
    requires Sound(q) && k < |q.jobs| && q.jobs[k].phase != Free
    ensures Find(Vacate(q, k).jobs, s, 0) == if s == q.jobs[k].sequence then |q.jobs| else Find(q.jobs, s, 0)
  {
    hide Sound;
    var r := Vacate(q, k);
    var i := Find(r.jobs, s, 0);
    assert r.jobs[k] == FREE && forall j :: 0 <= j < |q.jobs| && j != k ==> r.jobs[j] == q.jobs[j];
    if i < |q.jobs| && s == q.jobs[k].sequence {
      OneSlot(q, i, k);
    }
  }

  // ----- a report that is taken up -----------------------------------------------------------

  lemma AppliedMore(reports: seq<seq<byte>>, generation: seq<byte>, data: seq<byte>,
                    r: nat, k: nat, s: seq<byte>, status: u32, body: seq<byte>)
    ensures r < |reports| ==>
      (Applied(reports + [data], generation, r, k, s, status, body) <==> Applied(reports, generation, r, k, s, status, body))
    ensures Applied(reports + [data], generation, r, k, s, status, body) ==> r <= |reports|
  {
    hide Parse, DistinctTo;
  }

  /** In the report just taken up, what is applied is exactly what is said. */
  lemma LastApplied(q: JobQueue.State, reports: seq<seq<byte>>, data: seq<byte>, k: nat, s: seq<byte>, status: u32, body: seq<byte>)
    requires Passes(q, data)
    ensures (PassesParses(q, data); var m := Parse(Report, data).value;
      Applied(reports + [data], q.generation, |reports|, k, s, status, body) <==>
        GoodTo(q, m.fields.entries, k) && m.fields.entries[k].sequence == s
        && m.fields.entries[k].status == status && m.bodies[k] == body)
  {
    hide Parse, Phase1;
    ReportShape(data);
  }

  lemma DispatchedNotPast(q: JobQueue.State, s: seq<byte>)
    requires Phase1(q, s) == Dispatched
    ensures !Past(q, s)
  {
  }

  lemma FinishedPast(q: JobQueue.State, s: seq<byte>)
    requires Sound(q) && Answer(q, s).Some?
    ensures Past(q, s)
  {
    hide Hex;
    var k := Find(q.jobs, s, 0);
    SequenceOf(q, k);
  }

  lemma ReportTells(q: JobQueue.State, data: seq<byte>)
    requires Sound(q) && Passes(q, data)
    ensures (PassesParses(q, data); var m, r := Parse(Report, data).value, Report1(q, data).0;
      && Sound(r) && r.generation == q.generation && r.nextTicket == q.nextTicket
      && (forall k: nat :: GoodTo(q, m.fields.entries, k) ==>
            Answer(r, m.fields.entries[k].sequence) == Some((m.fields.entries[k].status, m.bodies[k])))
      && (forall other :: Untold(q, m.fields.entries, other) ==>
            Phase1(r, other) == Phase1(q, other) && Answer(r, other) == Answer(q, other)))
  {
    hide Sound, Parse, CompleteAll, Answer, Phase1, GoodTo;
    ReportShape(data);
    var m := Parse(Report, data).value;
    ReportSound(q, data);
    CompleteAllTells(q, m.fields.entries, m.bodies);
    ReportKept(q, data);
  }

  lemma ReportSaid(q: JobQueue.State, reports: seq<seq<byte>>, data: seq<byte>)
    requires Sound(q) && Passes(q, data) && AllSaid(reports, q)
    ensures AllSaid(reports + [data], Report1(q, data).0)
  {
    hide Sound, Parse, Report1, Answer, Phase1, Applied, Passes;
    PassesParses(q, data);
    ReportTells(q, data);
    var m, r := Parse(Report, data).value, Report1(q, data).0;
    forall s | Answer(r, s).Some?
      ensures SaidOf(reports + [data], r.generation, s, Answer(r, s).value.0, Answer(r, s).value.1)
    {
      var (status, body) := Answer(r, s).value;
      if Untold(q, m.fields.entries, s) {
        var i: nat, k: nat :| Applied(reports, q.generation, i, k, s, status, body);
        AppliedIn(reports, q.generation, i, k, s, status, body);
        AppliedMore(reports, q.generation, data, i, k, s, status, body);
      } else {
        var k: nat :| GoodTo(q, m.fields.entries, k) && m.fields.entries[k].sequence == s;
        LastApplied(q, reports, data, k, s, status, body);
      }
    }
  }

  lemma AppliedIn(reports: seq<seq<byte>>, generation: seq<byte>, r: nat, k: nat, s: seq<byte>, status: u32, body: seq<byte>)
    requires Applied(reports, generation, r, k, s, status, body)
    ensures r < |reports|
  {
  }

  lemma PassesParses(q: JobQueue.State, data: seq<byte>)
    requires Passes(q, data)
    ensures Parse(Report, data).Some?
    ensures var m := Parse(Report, data).value; |m.bodies| == |m.fields.entries| && m.fields.gen == Some(q.generation)
    ensures forall k :: 0 <= k < |Parse(Report, data).value.fields.entries| ==> Parse(Report, data).value.fields.entries[k].Done?
    ensures AllDispatched(q, Parse(Report, data).value.fields.entries)
  {
    hide Parse;
    ReportShape(data);
  }

  /** What was said before stays past, and what is said now is past from now on. */
  lemma ReportPast(q: JobQueue.State, reports: seq<seq<byte>>, data: seq<byte>, r: nat, k: nat, s: seq<byte>, status: u32, body: seq<byte>)
    requires Sound(q) && Passes(q, data) && SaidOnce(reports, q)
    requires Applied(reports + [data], q.generation, r, k, s, status, body)
    ensures Past(Report1(q, data).0, s)
    ensures r < |reports| ==> Past(q, s)
    ensures r == |reports| ==> Phase1(q, s) == Dispatched
  {
    hide Sound, Parse, Report1, Answer, Phase1, Applied, Passes, Past, Hex;
    PassesParses(q, data);
    ReportTells(q, data);
    AppliedMore(reports, q.generation, data, r, k, s, status, body);
    var m, q' := Parse(Report, data).value, Report1(q, data).0;
    if r == |reports| {
      LastApplied(q, reports, data, k, s, status, body);
      FinishedPast(q', s);
    } else {
      assert Past(q, s);
      assert Untold(q, m.fields.entries, s) by {
        forall i: nat | GoodTo(q, m.fields.entries, i)
          ensures m.fields.entries[i].sequence != s
        {
          DispatchedNotPast(q, m.fields.entries[i].sequence);
        }
      }
      PastSame(q, q', s);
    }
  }

  lemma PastSame(q: JobQueue.State, r: JobQueue.State, s: seq<byte>)
    requires Past(q, s) && r.nextTicket == q.nextTicket && Phase1(r, s) == Phase1(q, s)
    ensures Past(r, s)
  {
    hide Hex, Phase1;
  }

  lemma ReportOnce(q: JobQueue.State, reports: seq<seq<byte>>, data: seq<byte>)
    requires Sound(q) && Passes(q, data) && SaidOnce(reports, q)
    ensures SaidOnce(reports + [data], Report1(q, data).0)
  {
    hide Sound, Parse, Report1, Answer, Phase1, Applied, Passes, Past;
    var q', more := Report1(q, data).0, reports + [data];
    PassesParses(q, data);
    ReportTells(q, data);
    forall r: nat, k: nat, s, status, body | Applied(more, q'.generation, r, k, s, status, body)
      ensures Past(q', s)
    {
      ReportPast(q, reports, data, r, k, s, status, body);
    }
    forall r: nat, k: nat, r': nat, k': nat, s, status, body, status', body'
      | Applied(more, q'.generation, r, k, s, status, body) && Applied(more, q'.generation, r', k', s, status', body')
      ensures r == r' && k == k'
    {
      ReportPast(q, reports, data, r, k, s, status, body);
      ReportPast(q, reports, data, r', k', s, status', body');
      AppliedMore(reports, q.generation, data, r, k, s, status, body);
      AppliedMore(reports, q.generation, data, r', k', s, status', body');
      OnePlace(q, reports, data, r, k, r', k', s, status, body, status', body');
    }
  }

  lemma OnePlace(q: JobQueue.State, reports: seq<seq<byte>>, data: seq<byte>, r: nat, k: nat, r': nat, k': nat,
                 s: seq<byte>, status: u32, body: seq<byte>, status': u32, body': seq<byte>)
    requires Passes(q, data) && SaidOnce(reports, q) && r <= |reports| && r' <= |reports|
    requires Applied(reports + [data], q.generation, r, k, s, status, body)
    requires Applied(reports + [data], q.generation, r', k', s, status', body')
    requires r < |reports| ==> Past(q, s)
    requires r' < |reports| ==> Past(q, s)
    requires r == |reports| || r' == |reports| ==> Phase1(q, s) == Dispatched
    ensures r == r' && k == k'
  {
    hide Parse, Phase1, Applied, Passes, Past;
    if Phase1(q, s) == Dispatched {
      DispatchedNotPast(q, s);
    }
    if r == |reports| {
      PassesParses(q, data);
      LastApplied(q, reports, data, k, s, status, body);
      LastApplied(q, reports, data, k', s, status', body');
    } else {
      AppliedMore(reports, q.generation, data, r, k, s, status, body);
      AppliedMore(reports, q.generation, data, r', k', s, status', body');
    }
  }

  // ----- answers -------------------------------------------------------------------------------

  /** What the relay is sent for what the script said: a failure as it is, a success with its translation, if it has one that fits. */
  predicate Passed(translate: (u16, seq<byte>) -> Option<seq<byte>>, opcode: u16, status: u32, body: seq<byte>, a: Bus.Answered) {
    if status != STATUS_OK then a.status == status && a.body == []
    else
      var t := translate(opcode, body);
      if t.None? || |t.value| > MAX_TEXT_BYTES + 4 then a.status == STATUS_INTERNAL && a.body == []
      else a.status == STATUS_OK && a.body == t.value
  }

  /** An answer passes on what a report said of its own request's job, or refuses a request that never became one. */
  ghost predicate Told(b: BusState, a: Bus.Answered) {
    a.serial < |b.requests|
    && var asked := b.requests[a.serial];
       && a.requestId == asked.id
       && if asked.ticket.Some? then
            exists r: nat, k: nat, status: u32, body ::
              && Applied(b.reports, b.queue.generation, r, k, Hex(asked.ticket.value, SEQUENCE_HEX), status, body)
              && a.reported == Some(status) && Passed(b.translate, asked.opcode, status, body, a)
          else
            a.body == [] && a.status == (if RequestText(asked.opcode, asked.payload).None? then STATUS_INVALID else STATUS_BUSY)
  }

  ghost predicate AllTold(b: BusState) {
    forall i :: 0 <= i < |b.answers| ==> Told(b, b.answers[i])
  }

  /** A waiting request is kept with its own operation. */
  ghost predicate Kinds(b: BusState) {
    forall i :: 0 <= i < |b.inflight| && b.inflight[i].Some? ==>
      b.inflight[i].value.serial < |b.requests| && b.inflight[i].value.opcode == b.requests[b.inflight[i].value.serial].opcode
  }

  ghost predicate Recorded(b: BusState) {
    && AllOwned(b.requests, b.queue.jobs) && AllCarry(b.requests, b.queue.generation, b.spoken)
    && AllSaid(b.reports, b.queue) && SaidOnce(b.reports, b.queue) && AllTold(b) && Kinds(b)
  }

  lemma StartRecorded(generation: seq<byte>, translate: (u16, seq<byte>) -> Option<seq<byte>>)
    ensures Recorded(Bus.Start(generation, translate))
  {
    hide Parse;
    NeverAnswered(JobQueue.Start(generation));
  }

  lemma NeverAnswered(q: JobQueue.State)
    requires forall j :: 0 <= j < |q.jobs| ==> q.jobs[j].phase == Free
    ensures forall s :: Answer(q, s).None?
  {
  }

  /** Later requests and reports take nothing away from an answer. */
  lemma ToldMore(b: BusState, r: BusState, a: Bus.Answered)
    requires Told(b, a) && b.requests <= r.requests && b.reports <= r.reports
    requires r.queue.generation == b.queue.generation && r.translate == b.translate
    ensures Told(r, a)
  {
    hide Hex, Passed, RequestText;
    var asked := b.requests[a.serial];
    assert r.requests[a.serial] == asked;
    if asked.ticket.Some? {
      var i: nat, k: nat, status: u32, body :|
        && Applied(b.reports, b.queue.generation, i, k, Hex(asked.ticket.value, SEQUENCE_HEX), status, body)
        && a.reported == Some(status) && Passed(b.translate, asked.opcode, status, body, a);
      AppliedLater(b.reports, r.reports, b.queue.generation, i, k, Hex(asked.ticket.value, SEQUENCE_HEX), status, body);
    }
  }

  lemma AppliedLater(reports: seq<seq<byte>>, more: seq<seq<byte>>, generation: seq<byte>,
                     r: nat, k: nat, s: seq<byte>, status: u32, body: seq<byte>)
    requires Applied(reports, generation, r, k, s, status, body) && reports <= more
    ensures Applied(more, generation, r, k, s, status, body)
  {
    hide Parse, DistinctTo;
  }

  /** What a step leaves as it was, up to additions. */
  ghost predicate Adds(b: BusState, r: BusState) {
    && b.requests <= r.requests && b.reports <= r.reports
    && r.queue.generation == b.queue.generation && r.translate == b.translate
  }

  lemma AllToldMore(b: BusState, r: BusState)
    requires AllTold(b) && Adds(b, r) && r.answers == b.answers
    ensures AllTold(r)
  {
    hide Told;
    forall i | 0 <= i < |r.answers|
      ensures Told(r, r.answers[i])
    {
      ToldMore(b, r, r.answers[i]);
    }
  }

  // ----- each callback keeps the record ------------------------------------------------------------

  /** Nothing of the record is touched. */
  lemma RecordedSame(b: BusState, r: BusState)
    requires Recorded(b) && r.queue == b.queue && r.requests == b.requests && r.reports == b.reports
    requires r.answers == b.answers && r.spoken == b.spoken && r.inflight == b.inflight && r.translate == b.translate
    ensures Recorded(r)
  {
    hide AllOwned, AllCarry, AllSaid, SaidOnce;
    AllToldMore(b, r);
  }

  lemma SayRecorded(b: BusState, call: nat, said: Said)
    requires Recorded(b) && (said.Text? ==> Carries(b.requests, b.queue.generation, said))
    ensures Recorded(Say(b, call, said))
  {
    hide AllOwned, AllSaid, SaidOnce, Carries;
    AllToldMore(b, Say(b, call, said));
  }

  lemma TakeRecorded(b: BusState, queue: JobQueue.State)
    requires Recorded(b) && Dispatches(b.queue, queue) && AllOwned(b.requests, queue.jobs)
    ensures Recorded(b.(queue := queue))
  {
    hide AllOwned, AllCarry, AllSaid, SaidOnce, Dispatches, Moves;
    var r := b.(queue := queue);
    DispatchesMoves(b.queue, queue);
    MovesSaid(b.reports, b.queue, queue);
    DispatchesGeneration(b.queue, queue);
    AllToldMore(b, r);
  }

  lemma DispatchesGeneration(q: JobQueue.State, r: JobQueue.State)
    requires Dispatches(q, r)
    ensures r.generation == q.generation
  {
  }

  lemma SendableOf(b: BusState)
    requires Sound(b.queue) && Delivered(b)
    ensures Sendable(b.queue)
  {
    hide IsHex, Sound;
    forall j | 0 <= j < |b.queue.jobs| && b.queue.jobs[j].phase != Free
      ensures IsHex(b.queue.jobs[j].sequence, SEQUENCE_HEX)
    {
      SequenceIsHex(b.queue, j);
    }
  }

  lemma HandRecorded(b: BusState, call: nat, lane: Lane, idle: u32, now: nat)
    requires Core(b) && Recorded(b)
    ensures Recorded(Bus.Hand(b, call, lane, idle, now))
  {
    hide IsHex, Sound, Matched, Linked, Served, Honest, Quiet, Take, Handed, Reply1, Batches, Carries, Recorded, Sendable, Small, BatchOf, OfLane, Dispatches;
    var limit := Min(Cap(lane), POLL_CAPACITY);
    var (queue, batch) := Take(b.queue, lane, limit);
    TakeBatch(b.queue, lane, limit);
    SendableOf(b);
    TakeSmall(b.queue, lane, limit);
    RecordedOwned(b);
    TakeOwned(b.requests, b.queue, lane, limit);
    TakeDispatches(b.queue, lane, limit);
    TakeRecorded(b, queue);
    var idle' := if batch == [] then idle else 0;
    ReplyCarries(b.requests, b.queue.generation, lane, idle', batch, now);
    SayRecorded(b.(queue := queue), call, Reply1(b.queue.generation, lane, idle', batch, now));
  }

  lemma RecordedOwned(b: BusState)
    requires Recorded(b)
    ensures AllOwned(b.requests, b.queue.jobs)
  {
  }

  lemma ReleaseRecorded(b: BusState, lane: Lane, now: nat)
    requires Core(SetParked(b, lane, None)) && Recorded(b)
    ensures Recorded(ReleasePark(b, lane, now))
  {
    hide Core, Recorded, Bus.Hand;
    var call := Parked(b, lane);
    if call.Some? {
      RecordedSame(b, SetParked(b, lane, None));
      HandRecorded(SetParked(b, lane, None), call.value, lane, IDLE_MS, now);
    }
  }

  lemma KindsMore(b: BusState, r: BusState)
    requires Kinds(b) && r.inflight == b.inflight && b.requests <= r.requests
    ensures Kinds(r)
  {
  }

  lemma RefusedRecorded(b: BusState, asked: Asked, status: u32)
    requires Recorded(b) && asked.ticket.None?
    requires status == if RequestText(asked.opcode, asked.payload).None? then STATUS_INVALID else STATUS_BUSY
    ensures Recorded(Answer1(b.(requests := b.requests + [asked]), |b.requests|, asked.id, status, [], None))
  {
    hide AllOwned, AllCarry, AllSaid, SaidOnce, RequestText, Told, Kinds;
    var d := b.(requests := b.requests + [asked]);
    var r := Answer1(d, |b.requests|, asked.id, status, [], None);
    AllOwnedMore(b.requests, r.requests, b.queue.jobs);
    CarryMore(b.requests, r.requests, b.queue.generation, b.spoken);
    KindsMore(b, r);
    forall i | 0 <= i < |r.answers|
      ensures Told(r, r.answers[i])
    {
      if i < |b.answers| {
        ToldMore(b, r, b.answers[i]);
      } else {
        RefusalTold(r, asked, status);
      }
    }
  }

  lemma RefusalTold(r: BusState, asked: Asked, status: u32)
    requires r.requests != [] && r.requests[|r.requests| - 1] == asked && asked.ticket.None?
    requires status == if RequestText(asked.opcode, asked.payload).None? then STATUS_INVALID else STATUS_BUSY
    ensures Told(r, Bus.Answered(|r.requests| - 1, asked.id, status, [], None))
  {
    hide RequestText;
  }

  lemma EnteredOwned(b: BusState, k: nat, requestId: u64, opcode: u16, payload: seq<byte>, now: nat)
    requires AllOwned(b.requests, b.queue.jobs) && Sound(b.queue) && k < |b.queue.jobs| && RequestText(opcode, payload).Some?
    ensures var e := Fresh(b.queue, opcode, LaneFor(opcode), RequestText(opcode, payload).value, now);
      AllOwned(b.requests + [Asked(requestId, Some(b.queue.nextTicket), opcode, payload, now)], b.queue.jobs[k := e])
  {
    hide RequestText, LaneFor, Hex, Owned, Sound;
    var asked := Asked(requestId, Some(b.queue.nextTicket), opcode, payload, now);
    var more := b.requests + [asked];
    var e := Fresh(b.queue, opcode, LaneFor(opcode), RequestText(opcode, payload).value, now);
    AllOwnedMore(b.requests, more, b.queue.jobs);
    FreshOwned(more, asked, b.queue, now);
  }

  lemma FreshOwned(requests: seq<Asked>, asked: Asked, q: JobQueue.State, now: nat)
    requires requests != [] && requests[|requests| - 1] == asked && asked.ticket == Some(q.nextTicket) && asked.at == now
    requires RequestText(asked.opcode, asked.payload).Some?
    ensures Owned(requests, Fresh(q, asked.opcode, LaneFor(asked.opcode), RequestText(asked.opcode, asked.payload).value, now))
  {
    hide RequestText, LaneFor, Hex;
    var e := Fresh(q, asked.opcode, LaneFor(asked.opcode), RequestText(asked.opcode, asked.payload).value, now);
    assert JobOf(requests[|requests| - 1], e.ticket, e);
  }

  lemma EnteredRecorded(b: BusState, k: nat, slot: nat, requestId: u64, opcode: u16, payload: seq<byte>, now: nat)
    requires Recorded(b) && Sound(b.queue) && b.queue.nextSequence < SEQUENCES && RequestText(opcode, payload).Some?
    requires k < |b.queue.jobs| && b.queue.jobs[k].phase == Free && slot < |b.inflight|
    ensures var e := Fresh(b.queue, opcode, LaneFor(opcode), RequestText(opcode, payload).value, now);
      Recorded(Entered(b, Enter(b.queue, k, e), slot, Waiting(requestId, opcode, e.sequence, |b.requests|), payload, now))
  {
    hide AllOwned, AllCarry, AllSaid, SaidOnce, RequestText, LaneFor, Hex, Sound, Moves, AllTold;
    var text := RequestText(opcode, payload).value;
    var e := Fresh(b.queue, opcode, LaneFor(opcode), text, now);
    var r := Entered(b, Enter(b.queue, k, e), slot, Waiting(requestId, opcode, e.sequence, |b.requests|), payload, now);
    EnteredOwned(b, k, requestId, opcode, payload, now);
    CarryMore(b.requests, r.requests, b.queue.generation, b.spoken);
    EnterMoves(b.queue, k, opcode, LaneFor(opcode), text, now);
    MovesSaid(b.reports, b.queue, r.queue);
    AllToldMore(b, r);
    assert forall i :: 0 <= i < |r.inflight| && i != slot ==> r.inflight[i] == b.inflight[i];
  }

  lemma ReadableRecorded(b: BusState, requestId: u64, opcode: u16, payload: seq<byte>, now: nat)
    requires Agreed(b) && Recorded(b) && b.queue.nextSequence < SEQUENCES
    ensures Recorded(RelayReadable(b, requestId, opcode, payload, now))
  {
    hide Open, RequestText, Submit, FreeSlot, LaneFor, FirstFree, Sound, Matched, Linked, Served, Honest, Quiet, Delivered, Take, Reply1, Recorded, Hex;
    var text := RequestText(opcode, payload);
    var slot := FreeSlot(b.inflight, 0);
    if text.None? {
      RefusedRecorded(b, Asked(requestId, None, opcode, payload, now), STATUS_INVALID);
    } else {
      var (queue, sequence) := Submit(b.queue, opcode, text.value, now);
      if slot == |b.inflight| || sequence.None? {
        RefusedRecorded(b, Asked(requestId, None, opcode, payload, now), STATUS_BUSY);
      } else {
        Submitted(b.queue, opcode, text.value, now);
        EnteredRecorded(b, FirstFree(b.queue.jobs, 0), slot, requestId, opcode, payload, now);
        EnteredCore(b, requestId, opcode, payload, now);
        ReleaseRecorded(Entered(b, queue, slot, Waiting(requestId, opcode, sequence.value, |b.requests|), payload, now), LaneFor(opcode), now);
      }
    }
  }

  lemma PollRecorded(b: BusState, data: seq<byte>, now: nat)
    requires Agreed(b) && Recorded(b)
    ensures Recorded(Poll1(b, data, now))
  {
    hide Core, Open, Parse, Take, Agreed, Recorded, Bus.Hand;
    var m, call := Parse(Poll, data), b.calls;
    var called := Called(b, Some(data));
    AgreedParts(b);
    CalledCore(b, Some(data));
    RecordedSame(b, called);
    if m.None? || m.value.fields.gen != Some(b.queue.generation) {
      SayRecorded(called, call, Refused);
    } else {
      var lane := LaneOf(m.value);
      if Take(b.queue, lane, Min(Cap(lane), POLL_CAPACITY)).1 != [] {
        HandRecorded(called, call, lane, 0, now);
      } else {
        UnparkCore(called, lane);
        ReleaseRecorded(called, lane, now);
        RecordedSame(ReleasePark(called, lane, now), SetParked(ReleasePark(called, lane, now), lane, Some(call)));
      }
    }
  }

  lemma FinalPassed(translate: (u16, seq<byte>) -> Option<seq<byte>>, opcode: u16, status: u32, body: seq<byte>, a: Bus.Answered)
    requires (a.status, a.body) == Final(translate, opcode, status, body)
    ensures Passed(translate, opcode, status, body, a)
  {
  }

  lemma DrainTold(b: BusState, i: nat)
    requires Recorded(b) && Linked(b) && i < |b.inflight| && b.inflight[i].Some?
    requires Answer(b.queue, b.inflight[i].value.sequence).Some?
    ensures var r := DrainOne(b, i); |r.answers| == |b.answers| + 1 && Told(r, r.answers[|b.answers|])
  {
    hide Final, Passed, Hex, Answer, AllOwned, AllCarry, SaidOnce, AllTold, Release, Applied, RequestText, Ticketed;
    var r, w := DrainOne(b, i), b.inflight[i].value;
    var (status, body) := Answer(b.queue, w.sequence).value;
    var (st, out) := Final(b.translate, w.opcode, status, body);
    var a := r.answers[|b.answers|];
    FinalPassed(b.translate, w.opcode, status, body, a);
    var q: nat, k: nat :| Applied(b.reports, b.queue.generation, q, k, w.sequence, status, body);
    ReleaseGeneration(b.queue, w.sequence);
  }

  lemma ReleaseGeneration(q: JobQueue.State, sequence: seq<byte>)
    ensures Release(q, sequence).generation == q.generation
  {
  }

  lemma VacatedOwned(requests: seq<Asked>, q: JobQueue.State, k: nat)
    requires AllOwned(requests, q.jobs) && k < |q.jobs|
    ensures AllOwned(requests, Vacate(q, k).jobs)
  {
    hide Owned;
  }

  lemma DrainOneRecorded(b: BusState, i: nat)
    requires Recorded(b) && Core(b) && i < |b.inflight|
    ensures Recorded(DrainOne(b, i))
  {
    hide Final, Hex, AllOwned, AllCarry, AllSaid, SaidOnce, Told, Sound, Matched, Served, Honest, Quiet, Delivered, Find, Linked, Moves, Vacate;
    if b.inflight[i].Some? && Answer(b.queue, b.inflight[i].value.sequence).Some? {
      var r, s := DrainOne(b, i), b.inflight[i].value.sequence;
      var k := Find(b.queue.jobs, s, 0);
      VacateMoves(b.queue, k);
      MovesSaid(b.reports, b.queue, Vacate(b.queue, k));
      VacatedOwned(b.requests, b.queue, k);
      DrainTold(b, i);
      ReleaseGeneration(b.queue, s);
      forall j | 0 <= j < |r.answers|
        ensures Told(r, r.answers[j])
      {
        if j < |b.answers| {
          ToldMore(b, r, b.answers[j]);
        }
      }
      assert Kinds(r);
    }
  }

  lemma {:induction false} DrainRecorded(b: BusState, calls: set<nat>, i: nat)
    requires Recorded(b) && Core(b) && Open(b, calls) && i <= |b.inflight|
    ensures Recorded(Drain(b, i))
    decreases |b.inflight| - i
  {
    hide Recorded, Core, Open, DrainOne;
    if i < |b.inflight| {
      DrainOneRecorded(b, i);
      DrainOneAgreed(b, calls, i);
      DrainRecorded(DrainOne(b, i), calls, i + 1);
    }
  }

  /** A report changes no more of a job than its phase, status and reply. */
  predicate Settles(q: JobQueue.State, r: JobQueue.State) {
    && |r.jobs| == |q.jobs|
    && forall j :: 0 <= j < |q.jobs| ==>
         && (r.jobs[j].phase == Free <==> q.jobs[j].phase == Free)
         && r.jobs[j].ticket == q.jobs[j].ticket && r.jobs[j].opcode == q.jobs[j].opcode && r.jobs[j].body == q.jobs[j].body
         && r.jobs[j].lane == q.jobs[j].lane && r.jobs[j].deadline == q.jobs[j].deadline
  }

  lemma {:induction false} CompleteAllSettles(q: JobQueue.State, entries: seq<Item>, bodies: seq<seq<byte>>)
    requires |entries| == |bodies| && forall k :: 0 <= k < |entries| ==> entries[k].Done?
    ensures Settles(q, CompleteAll(q, entries, bodies).0)
    decreases |entries|
  {
    hide Find;
    if entries != [] {
      var (next, ok) := Complete1(q, q.generation, entries[0].sequence, entries[0].status, bodies[0]);
      assert Settles(q, next);
      if ok {
        CompleteAllSettles(next, entries[1..], bodies[1..]);
      }
    }
  }

  lemma SettlesOwned(requests: seq<Asked>, q: JobQueue.State, r: JobQueue.State)
    requires AllOwned(requests, q.jobs) && Settles(q, r)
    ensures AllOwned(requests, r.jobs)
  {
    hide Owned;
    forall j | 0 <= j < |r.jobs| && r.jobs[j].phase != Free
      ensures Owned(requests, r.jobs[j])
    {
      OwnedPhase(requests, q.jobs[j], r.jobs[j]);
    }
  }

  lemma ReportSettles(q: JobQueue.State, data: seq<byte>)
    requires Passes(q, data)
    ensures Settles(q, Report1(q, data).0)
  {
    hide Parse, CompleteAll;
    ReportShape(data);
    var m := Parse(Report, data).value;
    CompleteAllSettles(q, m.fields.entries, m.bodies);
  }

  lemma RefusedReport(q: JobQueue.State, data: seq<byte>)
    requires !Passes(q, data)
    ensures Report1(q, data) == (q, false)
  {
    hide Parse, CompleteAll;
  }

  lemma TakenRecorded(b: BusState, data: seq<byte>)
    requires Recorded(b) && Sound(b.queue)
    ensures Recorded(Called(b, None).(queue := Report1(b.queue, data).0, reports := TakenUp(b, data)))
  {
    hide AllOwned, AllCarry, AllSaid, SaidOnce, Passes, Report1, Sound;
    var r := Called(b, None).(queue := Report1(b.queue, data).0, reports := TakenUp(b, data));
    ReportSound(b.queue, data);
    if Passes(b.queue, data) {
      ReportSettles(b.queue, data);
      SettlesOwned(b.requests, b.queue, r.queue);
      ReportSaid(b.queue, b.reports, data);
      ReportOnce(b.queue, b.reports, data);
    } else {
      RefusedReport(b.queue, data);
    }
    AllToldMore(b, r);
  }

  lemma ReportRecorded(b: BusState, data: seq<byte>)
    requires Agreed(b) && Recorded(b)
    ensures Recorded(Report2(b, data))
  {
    hide Core, Open, Report1, Drain, Agreed, TakenUp, Recorded;
    var call := b.calls;
    var (queue, ok) := Report1(b.queue, data);
    var applied := Called(b, None).(queue := queue, reports := TakenUp(b, data));
    AgreedParts(b);
    AgreedSound(b);
    ReportCore(b, data);
    CallOpens(b, None);
    OpenSame(Called(b, None), applied, {call});
    TakenRecorded(b, data);
    if ok {
      DrainRecorded(applied, {call}, 0);
    }
    SayRecorded(if ok then Drain(applied, 0) else applied, call, if ok then Acknowledged else Refused);
  }

  lemma AgreedSound(b: BusState)
    requires Agreed(b)
    ensures Sound(b.queue)
  {
  }

  lemma NextRecorded(b: BusState, c: Callback)
    requires Agreed(b) && Recorded(b) && |b.requests| + 1 < SEQUENCES
    ensures Recorded(Bus.Next(b, c))
  {
    hide Agreed, Recorded, RelayReadable, Poll1, Report2, ReleasePark, Core;
    match c {
      case Readable(requestId, opcode, payload, now) =>
        RoomLeft(b);
        ReadableRecorded(b, requestId, opcode, payload, now);
      case PollCall(data, now) => PollRecorded(b, data, now);
      case ReportCall(data) => ReportRecorded(b, data);
      case OtherCall =>
        RecordedSame(b, Called(b, None));
        SayRecorded(Called(b, None), b.calls, Acknowledged);
      case IdleTimer(fast, now) =>
        var lane := if fast then Fast else Slow;
        AgreedParts(b);
        UnparkCore(b, lane);
        ReleaseRecorded(b, lane, now);
    }
  }

  // ----- whole runs -----------------------------------------------------------------------------------

  lemma {:induction false} RunRecorded(generation: seq<byte>, translate: (u16, seq<byte>) -> Option<seq<byte>>, cs: seq<Callback>)
    requires IsHex(generation, GENERATION_HEX) && |cs| + 1 < SEQUENCES
    ensures Recorded(Bus.Run(Bus.Start(generation, translate), cs))
    decreases |cs|
  {
    hide Agreed, Recorded, Bus.Next, IsHex;
    if cs == [] {
      StartRecorded(generation, translate);
    } else {
      var front := cs[..|cs| - 1];
      RunAgreed(generation, translate, front);
      RunRecorded(generation, translate, front);
      NextRecorded(Bus.Run(Bus.Start(generation, translate), front), cs[|cs| - 1]);
    }
  }

  /** Over every run, each answer passes on what a report said of its own request's job, or refuses one that never became a job. */
  lemma AnswersTold(generation: seq<byte>, translate: (u16, seq<byte>) -> Option<seq<byte>>, cs: seq<Callback>, i: nat)
    requires IsHex(generation, GENERATION_HEX) && |cs| + 1 < SEQUENCES
    requires i < |Bus.Run(Bus.Start(generation, translate), cs).answers|
    ensures var b := Bus.Run(Bus.Start(generation, translate), cs); Told(b, b.answers[i])
  {
    hide Told, Bus.Run, AllOwned, AllCarry, AllSaid, SaidOnce, IsHex;
    RunRecorded(generation, translate, cs);
  }

  /** No job is said anything of twice: the report and entry an answer comes from are the only ones. */
  lemma AppliedOnce(generation: seq<byte>, translate: (u16, seq<byte>) -> Option<seq<byte>>, cs: seq<Callback>,
                    r: nat, k: nat, r': nat, k': nat, s: seq<byte>, status: u32, body: seq<byte>, status': u32, body': seq<byte>)
    requires IsHex(generation, GENERATION_HEX) && |cs| + 1 < SEQUENCES
    requires var b := Bus.Run(Bus.Start(generation, translate), cs);
      && Applied(b.reports, b.queue.generation, r, k, s, status, body)
      && Applied(b.reports, b.queue.generation, r', k', s, status', body')
    ensures r == r' && k == k' && status == status' && body == body'
  {
    hide Parse, DistinctTo, Past, Bus.Run, AllOwned, AllCarry, AllSaid, AllTold, IsHex;
    RunRecorded(generation, translate, cs);
  }

  /** Over every run, each poll reply reads as jobs of the requests whose tickets it carries. */
  lemma RepliesCarry(generation: seq<byte>, translate: (u16, seq<byte>) -> Option<seq<byte>>, cs: seq<Callback>, k: nat)
    requires IsHex(generation, GENERATION_HEX) && |cs| + 1 < SEQUENCES
    requires var b := Bus.Run(Bus.Start(generation, translate), cs); k < |b.spoken| && b.spoken[k].said.Text?
    ensures var b := Bus.Run(Bus.Start(generation, translate), cs); Carries(b.requests, b.queue.generation, b.spoken[k].said)
  {
    hide Carries, Bus.Run, AllOwned, AllTold, AllSaid, SaidOnce, IsHex;
    RunRecorded(generation, translate, cs);
  }

  // ----- to whom ------------------------------------------------------------------------------------

  /** The call was a good poll of this session, for that lane. */
  ghost predicate PollFor(polls: seq<Option<seq<byte>>>, generation: seq<byte>, call: nat, fast: bool) {
    && call < |polls| && polls[call].Some?
    && var p := Parse(Poll, polls[call].value);
       p.Some? && p.value.fields.gen == Some(generation) && (p.value.fields.lane == Some(true) <==> fast)
  }

  /** A poll's reply is of the lane the poll was for, and tells it to come back after eight seconds exactly if it has no job. */
  ghost predicate Suits(polls: seq<Option<seq<byte>>>, generation: seq<byte>, sp: Spoken)
    requires sp.said.Text?
  {
    var m := Parse(Reply, sp.said.text);
    && m.Some? && m.value.fields.lane.Some? && PollFor(polls, generation, sp.call, m.value.fields.lane.value)
    && m.value.fields.idle == Some(if m.value.fields.entries == [] then 8000 else 0)
  }

  ghost predicate Addressed(b: BusState) {
    && |b.polls| == b.calls
    && (b.parkedFast.Some? ==> PollFor(b.polls, b.queue.generation, b.parkedFast.value, true))
    && (b.parkedSlow.Some? ==> PollFor(b.polls, b.queue.generation, b.parkedSlow.value, false))
    && (forall k :: 0 <= k < |b.spoken| && b.spoken[k].said.Text? ==> Suits(b.polls, b.queue.generation, b.spoken[k]))
  }

  lemma AddressedSame(b: BusState, r: BusState)
    requires Addressed(b) && r.polls == b.polls && r.calls == b.calls && r.queue.generation == b.queue.generation
    requires r.parkedFast in {None, b.parkedFast} && r.parkedSlow in {None, b.parkedSlow}
    requires forall k :: 0 <= k < |r.spoken| ==> (k < |b.spoken| && r.spoken[k] == b.spoken[k]) || !r.spoken[k].said.Text?
    ensures Addressed(r)
  {
    hide PollFor, Suits;
  }

  lemma PollStays(polls: seq<Option<seq<byte>>>, more: seq<Option<seq<byte>>>, generation: seq<byte>, call: nat, fast: bool)
    requires PollFor(polls, generation, call, fast) && polls <= more
    ensures PollFor(more, generation, call, fast)
  {
    hide Parse;
    assert more[call] == polls[call];
  }

  lemma CalledAddressed(b: BusState, poll: Option<seq<byte>>)
    requires Addressed(b)
    ensures Addressed(Called(b, poll))
  {
    hide PollFor, Parse;
    var r := Called(b, poll);
    if b.parkedFast.Some? {
      PollStays(b.polls, r.polls, b.queue.generation, b.parkedFast.value, true);
    }
    if b.parkedSlow.Some? {
      PollStays(b.polls, r.polls, b.queue.generation, b.parkedSlow.value, false);
    }
    forall k | 0 <= k < |r.spoken| && r.spoken[k].said.Text?
      ensures Suits(r.polls, r.queue.generation, r.spoken[k])
    {
      var m := Parse(Reply, r.spoken[k].said.text).value;
      PollStays(b.polls, r.polls, b.queue.generation, r.spoken[k].call, m.fields.lane.value);
    }
  }

  lemma ReplySuits(polls: seq<Option<seq<byte>>>, generation: seq<byte>, call: nat, lane: Lane, idle: u32, batch: seq<Entry>, now: nat)
    requires Small(batch) && IsHex(generation, GENERATION_HEX) && |batch| <= Cap(lane)
    requires PollFor(polls, generation, call, lane == Fast) && idle == if batch == [] then IDLE_MS else 0
    ensures Reply1(generation, lane, idle, batch, now).Text?
    ensures Suits(polls, generation, Spoken(call, Reply1(generation, lane, idle, batch, now)))
  {
    hide IsHex, GoodEntries, Fit, ReplyText, Parse, PollFor, Handed;
    ReplyWritten(generation, lane, idle, batch, now);
    ItemsGood(batch, now);
    GenGood(generation);
    ReplyRoundTrip(generation, lane == Fast, idle, Items(batch, now), Bodies(batch));
  }

  lemma HandAddressed(b: BusState, call: nat, lane: Lane, idle: u32, now: nat)
    requires Core(b) && Addressed(b) && PollFor(b.polls, b.queue.generation, call, lane == Fast)
    requires Take(b.queue, lane, Min(Cap(lane), POLL_CAPACITY)).1 == [] ==> idle == IDLE_MS
    ensures Addressed(Bus.Hand(b, call, lane, idle, now))
  {
    hide IsHex, Sound, Matched, Linked, Served, Honest, Quiet, Take, Handed, Reply1, Batches, Suits, PollFor, Sendable, Small, OfLane;
    var limit := Min(Cap(lane), POLL_CAPACITY);
    var (queue, batch) := Take(b.queue, lane, limit);
    TakeBatch(b.queue, lane, limit);
    SendableOf(b);
    TakeSmall(b.queue, lane, limit);
    ReplySuits(b.polls, b.queue.generation, call, lane, if batch == [] then idle else 0, batch, now);
  }

  lemma ReleaseAddressed(b: BusState, lane: Lane, now: nat)
    requires Core(SetParked(b, lane, None)) && Addressed(b) && lane != NoLane
    ensures Addressed(ReleasePark(b, lane, now))
    ensures ReleasePark(b, lane, now).polls == b.polls && ReleasePark(b, lane, now).queue.generation == b.queue.generation
  {
    hide Core, PollFor, Suits, Take, Reply1;
    var call := Parked(b, lane);
    if call.Some? {
      AddressedSame(b, SetParked(b, lane, None));
      HandAddressed(SetParked(b, lane, None), call.value, lane, IDLE_MS, now);
      TakeKept(b.queue, lane, Min(Cap(lane), POLL_CAPACITY));
    }
  }

  lemma ReadableAddressed(b: BusState, requestId: u64, opcode: u16, payload: seq<byte>, now: nat)
    requires Agreed(b) && Addressed(b) && b.queue.nextSequence < SEQUENCES
    ensures Addressed(RelayReadable(b, requestId, opcode, payload, now))
  {
    hide Open, RequestText, Submit, FreeSlot, LaneFor, FirstFree, Sound, Matched, Linked, Served, Honest, Quiet, Delivered, Take, Reply1, Addressed, Hex;
    hide ReleasePark;
    var text := RequestText(opcode, payload);
    var slot := FreeSlot(b.inflight, 0);
    if text.None? {
      AddressedSame(b, RelayReadable(b, requestId, opcode, payload, now));
    } else {
      var (queue, sequence) := Submit(b.queue, opcode, text.value, now);
      if slot == |b.inflight| || sequence.None? {
        AddressedSame(b, RelayReadable(b, requestId, opcode, payload, now));
      } else {
        Submitted(b.queue, opcode, text.value, now);
        EnteredCore(b, requestId, opcode, payload, now);
        var r := Entered(b, queue, slot, Waiting(requestId, opcode, sequence.value, |b.requests|), payload, now);
        AddressedSame(b, r);
        ReleaseAddressed(r, LaneFor(opcode), now);
      }
    }
  }

  lemma PollAddressed(b: BusState, data: seq<byte>, now: nat)
    requires Agreed(b) && Addressed(b)
    ensures Addressed(Poll1(b, data, now))
  {
    hide Core, Open, Parse, Take, Agreed, Suits, Bus.Hand, ReleasePark;
    var m, call := Parse(Poll, data), b.calls;
    var called := Called(b, Some(data));
    AgreedParts(b);
    CalledCore(b, Some(data));
    CalledAddressed(b, Some(data));
    if m.None? || m.value.fields.gen != Some(b.queue.generation) {
      AddressedSame(called, Say(called, call, Refused));
    } else {
      var lane := LaneOf(m.value);
      assert PollFor(called.polls, b.queue.generation, call, lane == Fast);
      if Take(b.queue, lane, Min(Cap(lane), POLL_CAPACITY)).1 != [] {
        HandAddressed(called, call, lane, 0, now);
      } else {
        UnparkCore(called, lane);
        ReleaseAddressed(called, lane, now);
      }
    }
  }

  lemma {:induction false} DrainSpoken(b: BusState, i: nat)
    requires i <= |b.inflight|
    ensures var r := Drain(b, i);
      && r.spoken == b.spoken && r.polls == b.polls && r.calls == b.calls && r.parkedFast == b.parkedFast
      && r.parkedSlow == b.parkedSlow && r.queue.generation == b.queue.generation
    decreases |b.inflight| - i
  {
    if i < |b.inflight| {
      DrainSpoken(DrainOne(b, i), i + 1);
    }
  }

  lemma ReportAddressed(b: BusState, data: seq<byte>)
    requires Addressed(b)
    ensures Addressed(Report2(b, data))
  {
    hide Report1, Drain, TakenUp, Addressed;
    var (queue, ok) := Report1(b.queue, data);
    var applied := Called(b, None).(queue := queue, reports := TakenUp(b, data));
    ReportKept(b.queue, data);
    CalledAddressed(b, None);
    AddressedSame(Called(b, None), applied);
    DrainSpoken(applied, 0);
    AddressedSame(applied, Report2(b, data));
  }

  lemma NextAddressed(b: BusState, c: Callback)
    requires Agreed(b) && Addressed(b) && |b.requests| + 1 < SEQUENCES
    ensures Addressed(Bus.Next(b, c))
  {
    hide Agreed, Addressed, RelayReadable, Poll1, Report2, Core;
    match c {
      case Readable(requestId, opcode, payload, now) =>
        RoomLeft(b);
        ReadableAddressed(b, requestId, opcode, payload, now);
      case PollCall(data, now) => PollAddressed(b, data, now);
      case ReportCall(data) => ReportAddressed(b, data);
      case OtherCall =>
        CalledAddressed(b, None);
        AddressedSame(Called(b, None), Bus.Next(b, c));
      case IdleTimer(fast, now) =>
        var lane := if fast then Fast else Slow;
        AgreedParts(b);
        UnparkCore(b, lane);
        ReleaseAddressed(b, lane, now);
    }
  }

  /** Over every run, a poll is answered with a reply of its own lane, and the idle one exactly if it has no job. */
  lemma {:induction false} RunAddressed(generation: seq<byte>, translate: (u16, seq<byte>) -> Option<seq<byte>>, cs: seq<Callback>)
    requires IsHex(generation, GENERATION_HEX) && |cs| + 1 < SEQUENCES
    ensures Addressed(Bus.Run(Bus.Start(generation, translate), cs))
    decreases |cs|
  {
    hide Agreed, Addressed, Bus.Next, IsHex;
    if cs == [] {
      StartAddressed(generation, translate);
    } else {
      var front := cs[..|cs| - 1];
      RunAgreed(generation, translate, front);
      RunAddressed(generation, translate, front);
      NextAddressed(Bus.Run(Bus.Start(generation, translate), front), cs[|cs| - 1]);
    }
  }

  lemma StartAddressed(generation: seq<byte>, translate: (u16, seq<byte>) -> Option<seq<byte>>)
    ensures Addressed(Bus.Start(generation, translate))
  {
  }
}

/**
 * The job queue as it is kept: a table of slots scanned and changed in place.
 *
 * Each method is proved equal to the function of JobQueue it computes, so what
 * holds of runs of those functions holds of the table.
 */
module JobTable {
  import opened Bytes
  import opened Numerals
  import opened Envelope
  import opened JobQueue
  import EnvelopeText

  function Count(jobs: seq<Entry>, phase: Phase): (n: nat) {
    if jobs == [] then 0
    else Count(jobs[..|jobs| - 1], phase) + if jobs[|jobs| - 1].phase == phase then 1 else 0
  }

  /** Where the jobs of a phase are. */
  function Places(jobs: seq<Entry>, phase: Phase): (r: set<nat>) {
    set i: nat | i < |jobs| && jobs[i].phase == phase
  }

  /** It is the number of slots in that phase. */
  lemma {:induction false} CountIsNumber(jobs: seq<Entry>, phase: Phase)
    ensures Count(jobs, phase) == |Places(jobs, phase)|
    decreases |jobs|
  {
    if jobs != [] {
      var n := |jobs| - 1;
      CountIsNumber(jobs[..n], phase);
      assert Places(jobs, phase) == Places(jobs[..n], phase) + if jobs[n].phase == phase then {n} else {};
    }
  }

  lemma TakeNone(q: State, lane: Lane, limit: nat, batch: seq<Entry>)
    requires limit == 0 || Oldest(q.jobs, lane, |q.jobs|) == |q.jobs|
    ensures Take(q, lane, limit).0 == q && batch + Take(q, lane, limit).1 == batch
  {
  }

  lemma TakeOne(q: State, lane: Lane, limit: nat, i: nat, batch: seq<Entry>)
    requires limit > 0 && i < |q.jobs| && i == Oldest(q.jobs, lane, |q.jobs|)
    ensures Take(q, lane, limit).0 == Take(Send(q, i), lane, limit - 1).0
    ensures batch + Take(q, lane, limit).1 == batch + [Send(q, i).jobs[i]] + Take(Send(q, i), lane, limit - 1).1
  {
  }

  class Queue {
    const jobs: array<Entry>
    const generation: seq<byte>
    var nextSequence: nat
    var nextTicket: nat
    ghost var sent: seq<Sent>
    ghost var finished: seq<nat>
    ghost var dropped: seq<nat>

    ghost predicate Valid()
      reads this, jobs
    {
      jobs.Length == MAX_JOBS && IsHex(generation, GENERATION_HEX)
    }

    ghost function Value(): (q: State)
      reads this, jobs
    {
      State(jobs[..], generation, nextSequence, nextTicket, sent, finished, dropped)
    }

    /** ksd_kwin_queue_init, for a generation that is well formed. */
    constructor (generation: seq<byte>)
      requires IsHex(generation, GENERATION_HEX)
      ensures Valid() && Value() == Start(generation) && fresh(jobs)
    {
      jobs := new Entry[MAX_JOBS](_ => FREE);
      this.generation := generation;
      nextSequence, nextTicket, sent, finished, dropped := 1, 1, [], [], [];
      new;
      assert jobs[..] == Start(generation).jobs;
    }

    /** ksd_kwin_queue_submit. */
    method Submit(opcode: u16, body: seq<byte>, now: nat) returns (r: Option<seq<byte>>)
      requires Valid()
      modifies this, jobs
      ensures Valid() && (Value(), r) == JobQueue.Submit(old(Value()), opcode, body, now)
    {
      hide Hex, IsHex;
      var lane := LaneFor(opcode);
      if lane == NoLane {
        return None;
      }
      var index := 0;
      while index < jobs.Length
        invariant 0 <= index <= jobs.Length
        invariant FirstFree(jobs[..], 0) == FirstFree(jobs[..], index)
      {
        if jobs[index].phase == Free {
          var sequence := FormatHex(nextSequence, SEQUENCE_HEX);
          ghost var before := jobs[..];
          jobs[index] := Entry(Queued, sequence, opcode, lane, now + DEADLINE_MS, nextTicket, 0, body, []);
          assert jobs[..] == before[index := jobs[index]];
          nextSequence, nextTicket := nextSequence + 1, nextTicket + 1;
          return Some(sequence);
        }
        index := index + 1;
      }
      r := None;
    }

    /** The inner scan of ksd_kwin_queue_take. */
    method OldestSlot(lane: Lane) returns (r: Option<nat>)
      requires Valid()
      ensures var i := Oldest(jobs[..], lane, jobs.Length); r == if i == jobs.Length then None else Some(i)
    {
      r := None;
      var index := 0;
      while index < jobs.Length
        invariant 0 <= index <= jobs.Length
        invariant var i := Oldest(jobs[..], lane, index); r == if i == jobs.Length then None else Some(i)
      {
        var e := jobs[index];
        if e.phase == Queued && e.lane == lane && (r.None? || e.ticket < jobs[r.value].ticket) {
          r := Some(index);
        }
        index := index + 1;
      }
    }

    /** ksd_kwin_queue_take. */
    method Take(lane: Lane, capacity: nat) returns (batch: seq<Entry>)
      requires Valid()
      modifies jobs, this`sent
      ensures Valid() && (Value(), batch) == JobQueue.Take(old(Value()), lane, Min(Cap(lane), capacity))
    {
      hide IsHex, Oldest, JobQueue.Take;
      var limit := Cap(lane);
      if capacity < limit {
        limit := capacity;
      }
      batch := [];
      ghost var goal := JobQueue.Take(Value(), lane, limit);
      assert batch + goal.1 == goal.1;
      while |batch| < limit
        invariant |batch| <= limit && Valid()
        invariant goal.0 == JobQueue.Take(Value(), lane, limit - |batch|).0
        invariant goal.1 == batch + JobQueue.Take(Value(), lane, limit - |batch|).1
      {
        var slot := OldestSlot(lane);
        if slot.None? {
          TakeNone(Value(), lane, limit - |batch|, batch);
          return;
        }
        var i := slot.value;
        TakeOne(Value(), lane, limit - |batch|, i, batch);
        ghost var before := jobs[..];
        jobs[i] := jobs[i].(phase := Dispatched);
        sent := sent + [Sent(jobs[i].ticket, jobs[i].lane)];
        assert jobs[..] == before[i := before[i].(phase := Dispatched)];
        batch := batch + [jobs[i]];
      }
      TakeNone(Value(), lane, 0, batch);
    }

    /** ksd_kwin_queue_find. */
    method Slot(sequence: seq<byte>) returns (r: Option<nat>)
      requires Valid()
      ensures var i := Find(jobs[..], sequence, 0); r == if i == jobs.Length then None else Some(i)
    {
      var index := 0;
      while index < jobs.Length
        invariant 0 <= index <= jobs.Length
        invariant Find(jobs[..], sequence, 0) == Find(jobs[..], sequence, index)
      {
        if jobs[index].phase != Free && jobs[index].sequence == sequence {
          return Some(index);
        }
        index := index + 1;
      }
      r := None;
    }

    /** ksd_kwin_queue_complete. */
    method Complete(generation: seq<byte>, sequence: seq<byte>, status: u32, reply: seq<byte>) returns (ok: bool)
      requires Valid()
      modifies jobs, this`finished
      ensures Valid() && (Value(), ok) == Complete1(old(Value()), generation, sequence, status, reply)
    {
      hide IsHex, Find;
      if generation != this.generation {
        return false;
      }
      var slot := Slot(sequence);
      if slot.None? || jobs[slot.value].phase != Dispatched {
        return false;
      }
      var i := slot.value;
      ghost var before := jobs[..];
      finished := finished + [jobs[i].ticket];
      jobs[i] := jobs[i].(phase := Finished, status := status, reply := if reply == [] then jobs[i].reply else reply);
      assert jobs[..] == before[i := jobs[i]];
      ok := true;
    }

    /** ksd_kwin_queue_result. */
    method Result(sequence: seq<byte>) returns (r: Option<(u32, seq<byte>)>)
      requires Valid()
      ensures r == Answer(Value(), sequence)
    {
      hide IsHex, Find;
      var slot := Slot(sequence);
      if slot.None? || jobs[slot.value].phase != Finished {
        return None;
      }
      r := Some((jobs[slot.value].status, jobs[slot.value].reply));
    }

    /** ksd_kwin_queue_release. */
    method Release(sequence: seq<byte>)
      requires Valid()
      modifies jobs, this`dropped
      ensures Valid() && Value() == JobQueue.Release(old(Value()), sequence)
    {
      hide IsHex, Find;
      var slot := Slot(sequence);
      if slot.Some? {
        var i := slot.value;
        ghost var before := jobs[..];
        if jobs[i].phase == Queued {
          dropped := dropped + [jobs[i].ticket];
        }
        jobs[i] := FREE;
        assert jobs[..] == before[i := FREE];
      }
    }

    /** ksd_kwin_queue_expire. */
    method Expire(now: nat) returns (expired: nat)
      requires Valid()
      modifies jobs, this`dropped
      ensures Valid() && Value() == JobQueue.Expire(old(Value()), now, MAX_JOBS)
      ensures expired == |dropped| - |old(dropped)|
    {
      hide IsHex;
      expired := 0;
      var index := 0;
      ghost var q := Value();
      while index < jobs.Length
        invariant 0 <= index <= jobs.Length && Valid()
        invariant Value() == JobQueue.Expire(q, now, index)
        invariant forall k :: index <= k < jobs.Length ==> jobs[k] == q.jobs[k]
        invariant expired == |dropped| - |q.dropped|
      {
        if jobs[index].phase == Queued && jobs[index].deadline <= now {
          ghost var before := jobs[..];
          dropped := dropped + [jobs[index].ticket];
          jobs[index] := FREE;
          assert jobs[..] == before[index := FREE];
          expired := expired + 1;
        }
        index := index + 1;
      }
    }

    /** ksd_kwin_queue_count. */
    method CountPhase(phase: Phase) returns (n: nat)
      requires Valid()
      ensures n == Count(jobs[..], phase)
    {
      n := 0;
      var index := 0;
      while index < jobs.Length
        invariant 0 <= index <= jobs.Length
        invariant n == Count(jobs[..index], phase)
      {
        assert jobs[..index + 1][..index] == jobs[..index];
        if jobs[index].phase == phase {
          n := n + 1;
        }
        index := index + 1;
      }
      assert jobs[..index] == jobs[..];
    }

    /** The first check of a report: every job it names was handed out and is not finished. */
    method Precheck(entries: seq<Item>) returns (ok: bool)
      requires Valid() && forall k :: 0 <= k < |entries| ==> entries[k].Done?
      ensures ok <==> AllDispatched(Value(), entries)
    {
      hide IsHex, Find;
      var k := 0;
      while k < |entries|
        invariant 0 <= k <= |entries|
        invariant forall j :: 0 <= j < k ==> Phase1(Value(), entries[j].sequence) == Dispatched
      {
        var slot := Slot(entries[k].sequence);
        if slot.None? || jobs[slot.value].phase != Dispatched {
          return false;
        }
        k := k + 1;
      }
      ok := true;
    }

    /** ksd_kwin_queue_report, up to the acknowledgement. */
    method Report(data: seq<byte>) returns (ok: bool)
      requires Valid()
      modifies jobs, this`finished
      ensures Valid() && (Value(), ok) == Report1(old(Value()), data)
    {
      hide IsHex, Parse, AllDispatched;
      var m := EnvelopeText.ParseReport(data);
      if m.None? || m.value.fields.gen != Some(generation) {
        return false;
      }
      ReportShape(data);
      var entries, bodies := m.value.fields.entries, m.value.bodies;
      ok := Precheck(entries);
      if ok {
        ok := ApplyEntries(entries, bodies);
      }
    }

    method ApplyEntries(entries: seq<Item>, bodies: seq<seq<byte>>) returns (ok: bool)
      requires Valid() && |entries| == |bodies| && forall k :: 0 <= k < |entries| ==> entries[k].Done?
      modifies jobs, this`finished
      ensures Valid() && (Value(), ok) == CompleteAll(old(Value()), entries, bodies)
    {
      hide IsHex, Complete1;
      var k := 0;
      ghost var goal := CompleteAll(Value(), entries, bodies);
      assert entries[0..] == entries && bodies[0..] == bodies;
      while k < |entries|
        invariant 0 <= k <= |entries| && Valid()
        invariant goal == CompleteAll(Value(), entries[k..], bodies[k..])
      {
        assert entries[k..][1..] == entries[k + 1..] && bodies[k..][1..] == bodies[k + 1..];
        ok := Complete(generation, entries[k].sequence, entries[k].status, bodies[k]);
        if !ok {
          return;
        }
        k := k + 1;
      }
      ok := true;
    }
  }
}

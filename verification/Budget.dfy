/** Who may come in and how much each may hold: usage tables, the worker pool and the memory budgets. */
module Budget {
  import opened Bytes

  const SLOTS: nat := 128

  // ----- usage tables ----------------------------------------------------------------

  datatype Slot = Slot(key: u64, count: nat)

  const EMPTY := Slot(0, 0)

  function EmptyTable(): (slots: seq<Slot>) {
    seq(SLOTS, _ => EMPTY)
  }

  /** The slot in use for the key among those from i on, else the first free one seen, else none. */
  function Find(slots: seq<Slot>, key: u64, i: nat, free: Option<nat>): (r: Option<nat>)
    requires i <= |slots| && (free.Some? ==> free.value < i && slots[free.value].count == 0)
    ensures r.Some? ==> r.value < |slots| && (slots[r.value].count == 0 || slots[r.value].key == key)
    ensures r.Some? && slots[r.value].count == 0 ==>
      forall j :: i <= j < |slots| ==> !(slots[j].count != 0 && slots[j].key == key)
    ensures r.None? ==> free.None? && forall j :: i <= j < |slots| ==> slots[j].count != 0
    decreases |slots| - i
  {
    if i == |slots| then free
    else if slots[i].count != 0 && slots[i].key == key then Some(i)
    else Find(slots, key, i + 1, if free.None? && slots[i].count == 0 then Some(i) else free)
  }

  /** How much is recorded for a key, wherever it is recorded. */
  function Usage(slots: seq<Slot>, key: u64): (n: nat) {
    if slots == [] then 0
    else Usage(slots[..|slots| - 1], key) + if slots[|slots| - 1].key == key then slots[|slots| - 1].count else 0
  }

  function Total(slots: seq<Slot>): (n: nat) {
    if slots == [] then 0 else Total(slots[..|slots| - 1]) + slots[|slots| - 1].count
  }

  /** A key has at most one slot in use. */
  predicate Unique(slots: seq<Slot>) {
    forall i, j :: 0 <= i < j < |slots| && slots[i].count != 0 && slots[j].count != 0 ==> slots[i].key != slots[j].key
  }

  function Own(s: Slot, key: u64): (n: nat) {
    if s.key == key then s.count else 0
  }

  lemma {:induction false} UsageUpdate(slots: seq<Slot>, i: nat, s: Slot, key: u64)
    requires i < |slots|
    ensures Usage(slots[i := s], key) + Own(slots[i], key) == Usage(slots, key) + Own(s, key)
    ensures Total(slots[i := s]) + slots[i].count == Total(slots) + s.count
    decreases |slots|
  {
    var n := |slots| - 1;
    if i < n {
      UsageUpdate(slots[..n], i, s, key);
      assert slots[i := s][..n] == slots[..n][i := s];
    } else {
      assert slots[i := s][..n] == slots[..n];
    }
  }

  lemma {:induction false} UsageAbsent(slots: seq<Slot>, key: u64)
    requires forall j :: 0 <= j < |slots| ==> Own(slots[j], key) == 0
    ensures Usage(slots, key) == 0
    decreases |slots|
  {
    if slots != [] {
      UsageAbsent(slots[..|slots| - 1], key);
    }
  }

  /** What one slot in use says about its key is all there is. */
  lemma UsageOne(slots: seq<Slot>, i: nat, key: u64)
    requires Unique(slots) && i < |slots| && slots[i].key == key && slots[i].count != 0
    ensures Usage(slots, key) == slots[i].count
  {
    var rest := slots[i := EMPTY];
    UsageUpdate(slots, i, EMPTY, key);
    forall j | 0 <= j < |rest|
      ensures Own(rest[j], key) == 0
    {
      if j != i && slots[j].count != 0 {
        assert slots[j].key != slots[i].key;
      }
    }
    UsageAbsent(rest, key);
  }

  /** The count in the slot that is found is the usage of the key. */
  lemma FindCount(slots: seq<Slot>, key: u64)
    requires Unique(slots) && Find(slots, key, 0, None).Some?
    ensures slots[Find(slots, key, 0, None).value].count == Usage(slots, key)
  {
    hide Find;
    var i := Find(slots, key, 0, None).value;
    if slots[i].count == 0 {
      UsageAbsent(slots, key);
    } else {
      UsageOne(slots, i, key);
    }
  }

  /** add_usage on the slot that was found. */
  function Added(slots: seq<Slot>, key: u64): (r: seq<Slot>)
    requires Find(slots, key, 0, None).Some?
    ensures |r| == |slots|
  {
    var i := Find(slots, key, 0, None).value;
    slots[i := Slot(key, slots[i].count + 1)]
  }

  lemma AddedExact(slots: seq<Slot>, key: u64, other: u64)
    requires Unique(slots) && Find(slots, key, 0, None).Some?
    ensures Unique(Added(slots, key)) && Total(Added(slots, key)) == Total(slots) + 1
    ensures Usage(Added(slots, key), other) == Usage(slots, other) + if other == key then 1 else 0
  {
    hide Find;
    var i := Find(slots, key, 0, None).value;
    UsageUpdate(slots, i, Slot(key, slots[i].count + 1), other);
  }

  /** release_usage. */
  function Released(slots: seq<Slot>, key: u64): (r: seq<Slot>)
    ensures |r| == |slots|
  {
    var i := Find(slots, key, 0, None);
    if i.Some? && slots[i.value].count != 0 && slots[i.value].key == key
    then slots[i.value := slots[i.value].(count := slots[i.value].count - 1)]
    else slots
  }

  lemma ReleasedExact(slots: seq<Slot>, key: u64, other: u64)
    requires Unique(slots) && Usage(slots, key) > 0
    ensures Unique(Released(slots, key)) && Total(Released(slots, key)) == Total(slots) - 1
    ensures Usage(Released(slots, key), other) == Usage(slots, other) - if other == key then 1 else 0
  {
    hide Find;
    var f := Find(slots, key, 0, None);
    if f.None? || slots[f.value].count == 0 {
      MustBeFound(slots, key);
    }
    var i := f.value;
    UsageUpdate(slots, i, slots[i].(count := slots[i].count - 1), other);
  }

  lemma MustBeFound(slots: seq<Slot>, key: u64)
    requires Usage(slots, key) > 0
    ensures Find(slots, key, 0, None).Some? && slots[Find(slots, key, 0, None).value].count != 0
  {
    if forall j :: 0 <= j < |slots| ==> Own(slots[j], key) == 0 {
      UsageAbsent(slots, key);
    } else {
      var j :| 0 <= j < |slots| && Own(slots[j], key) != 0;
      FindReaches(slots, key, 0, None, j);
    }
  }

  lemma {:induction false} FindReaches(slots: seq<Slot>, key: u64, i: nat, free: Option<nat>, j: nat)
    requires i <= j < |slots| && slots[j].count != 0 && slots[j].key == key
    requires free.Some? ==> free.value < i && slots[free.value].count == 0
    ensures Find(slots, key, i, free).Some? && slots[Find(slots, key, i, free).value].count != 0
    decreases |slots| - i
  {
    if i < j && !(slots[i].count != 0 && slots[i].key == key) {
      FindReaches(slots, key, i + 1, if free.None? && slots[i].count == 0 then Some(i) else free, j);
    }
  }

  /** A table is full only when there is something in every slot. */
  lemma {:induction false} FullTable(slots: seq<Slot>)
    requires forall j :: 0 <= j < |slots| ==> slots[j].count != 0
    ensures Total(slots) >= |slots|
    decreases |slots|
  {
    if slots != [] {
      FullTable(slots[..|slots| - 1]);
    }
  }

  // ----- what a table records -------------------------------------------------------------

  function Tally(holders: seq<u64>, key: u64): (n: nat) {
    if holders == [] then 0 else Tally(holders[..|holders| - 1], key) + if holders[|holders| - 1] == key then 1 else 0
  }

  lemma TallyAppend(holders: seq<u64>, h: u64, key: u64)
    ensures Tally(holders + [h], key) == Tally(holders, key) + if h == key then 1 else 0
  {
    assert (holders + [h])[..|holders|] == holders;
  }

  lemma WithoutLast<T>(xs: seq<T>, k: nat)
    requires k < |xs|
    ensures |Without(xs, k)| == |xs| - 1
    ensures k == |xs| - 1 ==> Without(xs, k) == xs[..k]
    ensures k < |xs| - 1 ==> Without(xs, k)[..|xs| - 2] == Without(xs[..|xs| - 1], k) && Without(xs, k)[|xs| - 2] == xs[|xs| - 1]
  {
  }

  lemma {:induction false} TallyWithout(holders: seq<u64>, k: nat, key: u64)
    requires k < |holders|
    ensures Tally(Without(holders, k), key) + (if holders[k] == key then 1 else 0) == Tally(holders, key)
    decreases |holders|
  {
    hide Without;
    WithoutLast(holders, k);
    if k < |holders| - 1 {
      TallyWithout(holders[..|holders| - 1], k, key);
    }
  }

  /** The table says of each key how many hold under it, and in all how many hold. */
  ghost predicate Records(slots: seq<Slot>, holders: seq<u64>) {
    && |slots| == SLOTS && Unique(slots) && Total(slots) == |holders|
    && forall key :: Usage(slots, key) == Tally(holders, key)
  }

  lemma EmptyRecords()
    ensures Records(EmptyTable(), [])
  {
    var slots := EmptyTable();
    forall key: u64
      ensures Usage(slots, key) == 0
    {
      UsageAbsent(slots, key);
    }
    TotalEmpty(slots);
  }

  lemma {:induction false} TotalEmpty(slots: seq<Slot>)
    requires forall j :: 0 <= j < |slots| ==> slots[j].count == 0
    ensures Total(slots) == 0
    decreases |slots|
  {
    if slots != [] {
      TotalEmpty(slots[..|slots| - 1]);
    }
  }

  lemma AddedRecords(slots: seq<Slot>, holders: seq<u64>, key: u64)
    requires Records(slots, holders) && Find(slots, key, 0, None).Some?
    ensures Records(Added(slots, key), holders + [key])
  {
    hide Find, Usage, Tally, Unique, Total, Added;
    AddedExact(slots, key, key);
    forall other
      ensures Usage(Added(slots, key), other) == Tally(holders + [key], other)
    {
      AddedExact(slots, key, other);
      TallyAppend(holders, key, other);
    }
  }

  lemma ReleasedRecords(slots: seq<Slot>, holders: seq<u64>, k: nat)
    requires Records(slots, holders) && k < |holders|
    ensures Records(Released(slots, holders[k]), Without(holders, k))
  {
    hide Find, Usage, Tally, Unique, Total, Released;
    var key := holders[k];
    TallyWithout(holders, k, key);
    ReleasedExact(slots, key, key);
    forall other
      ensures Usage(Released(slots, key), other) == Tally(Without(holders, k), other)
    {
      ReleasedExact(slots, key, other);
      TallyWithout(holders, k, other);
    }
  }

  /** The count a caller reads is the number of holders under the key; no slot means 128 holders. */
  lemma FoundTally(slots: seq<Slot>, holders: seq<u64>, key: u64)
    requires Records(slots, holders)
    ensures var f := Find(slots, key, 0, None);
      if f.Some? then slots[f.value].count == Tally(holders, key) else |holders| >= SLOTS
  {
    hide Find, Usage, Tally, Unique, Total;
    var f := Find(slots, key, 0, None);
    if f.Some? {
      FindCount(slots, key);
    } else {
      FullTable(slots);
    }
  }

  // ----- the worker pool -----------------------------------------------------------------------

  const MAX_WORKERS: nat := 128
  const MAX_PER_UID: nat := 32
  const RESERVE: nat := 8
  const GENERAL: nat := MAX_WORKERS - RESERVE

  datatype Admission = Refused | General | Reserved

  /** ksd_authority_admit_worker. */
  function AdmitWorker(workers: nat, ofUid: nat): (a: Admission) {
    if workers >= MAX_WORKERS then Refused
    else if workers < GENERAL && ofUid < MAX_PER_UID then General
    else Reserved
  }

  /** ksd_authority_worker_keeps_slot. */
  predicate KeepsSlot(reserved: bool, registration: bool) {
    !reserved || registration
  }

  datatype Kind = Unknown | Ordinary | Registration | Closing

  datatype Connection = Connection(uid: u64, reserved: bool, kind: Kind)

  datatype Pool = Pool(workers: nat, usage: seq<Slot>, connections: seq<Connection>)

  function Uids(cs: seq<Connection>): (r: seq<u64>)
    ensures |r| == |cs|
  {
    seq(|cs|, k requires 0 <= k < |cs| => cs[k].uid)
  }

  datatype PoolStep = Accept(uid: u64) | Classify(k: nat, registration: bool) | Leave(k: nat)

  predicate PoolEnabled(p: Pool, step: PoolStep) {
    match step
    case Accept(_) => true
    case Classify(k, _) => k < |p.connections| && p.connections[k].kind == Unknown
    case Leave(k) => k < |p.connections| && p.workers > 0
  }

  /** reserve_worker, the decision of connection_worker, and its end. */
  function PoolNext(p: Pool, step: PoolStep): (r: Pool)
    requires PoolEnabled(p, step)
  {
    match step
    case Accept(uid) =>
      var f := Find(p.usage, uid, 0, None);
      if f.None? then p
      else
        var a := AdmitWorker(p.workers, p.usage[f.value].count);
        if a == Refused then p
        else Pool(p.workers + 1, Added(p.usage, uid), p.connections + [Connection(uid, a == Reserved, Unknown)])
    case Classify(k, registration) =>
      var c := p.connections[k];
      var kind := if !KeepsSlot(c.reserved, registration) then Closing else if registration then Registration else Ordinary;
      p.(connections := p.connections[k := c.(kind := kind)])
    case Leave(k) =>
      Pool(p.workers - 1, Released(p.usage, p.connections[k].uid), Without(p.connections, k))
  }

  predicate GeneralOf(c: Connection, uid: Option<u64>) {
    !c.reserved && (uid.Some? ==> c.uid == uid.value)
  }

  /** How many connections hold general slots, in all or of one uid. */
  function Generals(cs: seq<Connection>, uid: Option<u64>): (n: nat) {
    if cs == [] then 0 else Generals(cs[..|cs| - 1], uid) + if GeneralOf(cs[|cs| - 1], uid) then 1 else 0
  }

  predicate OrdinaryOf(c: Connection, uid: Option<u64>) {
    c.kind == Ordinary && (uid.Some? ==> c.uid == uid.value)
  }

  function Ordinaries(cs: seq<Connection>, uid: Option<u64>): (n: nat) {
    if cs == [] then 0 else Ordinaries(cs[..|cs| - 1], uid) + if OrdinaryOf(cs[|cs| - 1], uid) then 1 else 0
  }

  lemma {:induction false} GeneralsUpdate(cs: seq<Connection>, k: nat, c: Connection, uid: Option<u64>)
    requires k < |cs| && c.uid == cs[k].uid && c.reserved == cs[k].reserved
    ensures Generals(cs[k := c], uid) == Generals(cs, uid)
    decreases |cs|
  {
    var n := |cs| - 1;
    if k < n {
      GeneralsUpdate(cs[..n], k, c, uid);
      assert cs[k := c][..n] == cs[..n][k := c];
    } else {
      assert cs[k := c][..n] == cs[..n];
    }
  }

  lemma {:induction false} GeneralsWithout(cs: seq<Connection>, k: nat, uid: Option<u64>)
    requires k < |cs|
    ensures Generals(Without(cs, k), uid) <= Generals(cs, uid)
    decreases |cs|
  {
    hide Without;
    WithoutLast(cs, k);
    if k < |cs| - 1 {
      GeneralsWithout(cs[..|cs| - 1], k, uid);
    }
  }

  lemma {:induction false} GeneralsBound(cs: seq<Connection>, uid: u64)
    ensures Generals(cs, None) <= |cs| && Generals(cs, Some(uid)) <= Tally(Uids(cs), uid)
    decreases |cs|
  {
    if cs != [] {
      var front := cs[..|cs| - 1];
      GeneralsBound(front, uid);
      assert Uids(cs)[..|cs| - 1] == Uids(front);
    }
  }

  lemma {:induction false} OrdinaryBound(cs: seq<Connection>, uid: Option<u64>)
    requires forall k :: 0 <= k < |cs| && cs[k].kind == Ordinary ==> !cs[k].reserved
    ensures Ordinaries(cs, uid) <= Generals(cs, uid)
    decreases |cs|
  {
    if cs != [] {
      OrdinaryBound(cs[..|cs| - 1], uid);
    }
  }

  ghost predicate PoolSound(p: Pool) {
    && Records(p.usage, Uids(p.connections)) && p.workers == |p.connections| <= MAX_WORKERS
    && (forall k :: 0 <= k < |p.connections| && p.connections[k].kind == Ordinary ==> !p.connections[k].reserved)
    && Generals(p.connections, None) <= GENERAL
    && forall uid :: Generals(p.connections, Some(uid)) <= MAX_PER_UID
  }

  function PoolStart(): (p: Pool) {
    Pool(0, EmptyTable(), [])
  }

  lemma PoolStartSound()
    ensures PoolSound(PoolStart())
  {
    EmptyRecords();
    assert Uids([]) == [];
  }

  lemma GeneralsAppend(cs: seq<Connection>, c: Connection, uid: Option<u64>)
    ensures Generals(cs + [c], uid) == Generals(cs, uid) + if GeneralOf(c, uid) then 1 else 0
  {
    assert (cs + [c])[..|cs|] == cs;
  }

  lemma AcceptSound(p: Pool, uid: u64)
    requires PoolSound(p)
    ensures PoolSound(PoolNext(p, Accept(uid)))
    ensures |PoolNext(p, Accept(uid)).connections| == |p.connections| <==> p.workers == MAX_WORKERS
  {
    hide Find, Added, Records, Generals, Tally;
    var r := PoolNext(p, Accept(uid));
    var uids := Uids(p.connections);
    FoundTally(p.usage, uids, uid);
    if r != p {
      var c := r.connections[|p.connections|];
      AddedRecords(p.usage, uids, uid);
      assert Uids(r.connections) == uids + [uid];
      GeneralsAppend(p.connections, c, None);
      GeneralsBound(p.connections, uid);
      forall u
        ensures Generals(r.connections, Some(u)) <= MAX_PER_UID
      {
        GeneralsAppend(p.connections, c, Some(u));
      }
    }
  }

  lemma PoolNextSound(p: Pool, step: PoolStep)
    requires PoolSound(p) && PoolEnabled(p, step)
    ensures PoolSound(PoolNext(p, step))
  {
    hide Find, Added, Released, Records, Generals, Tally;
    var r, cs := PoolNext(p, step), p.connections;
    match step {
      case Accept(uid) => AcceptSound(p, uid);
      case Classify(k, registration) =>
        assert Uids(r.connections) == Uids(cs);
        GeneralsUpdate(cs, k, r.connections[k], None);
        forall u
          ensures Generals(r.connections, Some(u)) <= MAX_PER_UID
        {
          GeneralsUpdate(cs, k, r.connections[k], Some(u));
        }
      case Leave(k) =>
        ReleasedRecords(p.usage, Uids(cs), k);
        assert Uids(r.connections) == Without(Uids(cs), k);
        GeneralsWithout(cs, k, None);
        forall u
          ensures Generals(r.connections, Some(u)) <= MAX_PER_UID
        {
          GeneralsWithout(cs, k, Some(u));
        }
    }
  }

  ghost predicate PoolRuns(p: Pool, steps: seq<PoolStep>, last: Pool)
    decreases |steps|
  {
    if steps == [] then last == p else PoolEnabled(p, steps[0]) && PoolRuns(PoolNext(p, steps[0]), steps[1..], last)
  }

  lemma {:induction false} PoolRunSound(p: Pool, steps: seq<PoolStep>, last: Pool)
    requires PoolSound(p) && PoolRuns(p, steps, last)
    ensures PoolSound(last)
    decreases |steps|
  {
    hide PoolSound, PoolNext;
    if steps != [] {
      PoolNextSound(p, steps[0]);
      PoolRunSound(PoolNext(p, steps[0]), steps[1..], last);
    }
  }

  /**
   * Over every run: the counter is the number of connections and the table says
   * whose they are; no more than 120 ordinary connections are kept, 32 of a uid.
   */
  lemma PoolLimits(steps: seq<PoolStep>, p: Pool, uid: u64)
    requires PoolRuns(PoolStart(), steps, p)
    ensures p.workers == |p.connections| == Total(p.usage) <= MAX_WORKERS && Unique(p.usage)
    ensures Usage(p.usage, uid) == Tally(Uids(p.connections), uid)
    ensures Ordinaries(p.connections, None) <= 120 && Ordinaries(p.connections, Some(uid)) <= 32
  {
    hide PoolRuns, Generals, Ordinaries, Usage, Tally, Total, Unique;
    PoolStartSound();
    PoolRunSound(PoolStart(), steps, p);
    OrdinaryBound(p.connections, None);
    OrdinaryBound(p.connections, Some(uid));
  }

  /** A registration is turned away only when all 128 slots are taken. */
  lemma RegistrationAdmitted(steps: seq<PoolStep>, p: Pool, uid: u64)
    requires PoolRuns(PoolStart(), steps, p)
    ensures |PoolNext(p, Accept(uid)).connections| == |p.connections| <==> p.workers == MAX_WORKERS
    ensures forall reserved :: KeepsSlot(reserved, true)
  {
    hide PoolRuns, PoolSound, PoolNext;
    PoolStartSound();
    PoolRunSound(PoolStart(), steps, p);
    AcceptSound(p, uid);
  }

  /**
   * A connection that is taken in holds a general slot exactly when fewer than
   * 120 connections are there and fewer than 32 of its uid.
   */
  lemma AcceptsExactly(steps: seq<PoolStep>, p: Pool, uid: u64)
    requires PoolRuns(PoolStart(), steps, p)
    ensures var n := |p.connections|; var q := PoolNext(p, Accept(uid));
      q.connections ==
        if n == 128 then p.connections
        else p.connections + [Connection(uid, !(n < 120 && Tally(Uids(p.connections), uid) < 32), Unknown)]
  {
    hide PoolRuns, PoolSound, Find, Added, Tally, Usage;
    PoolStartSound();
    PoolRunSound(PoolStart(), steps, p);
    AcceptSound(p, uid);
    PoolFound(p, uid);
  }

  lemma PoolFound(p: Pool, uid: u64)
    requires PoolSound(p)
    ensures p.workers == |p.connections| <= MAX_WORKERS
    ensures var f := Find(p.usage, uid, 0, None);
      (f.Some? ==> f.value < |p.usage| && p.usage[f.value].count == Tally(Uids(p.connections), uid))
      && (f.None? ==> |p.connections| == MAX_WORKERS)
  {
    hide Find, Tally, Generals, Records;
    FoundTally(p.usage, Uids(p.connections), uid);
  }

  /** Once it is known what it is, a registration is kept, and anything else is kept exactly on a general slot. */
  lemma KeepsExactly(p: Pool, k: nat, registration: bool)
    requires PoolEnabled(p, Classify(k, registration))
    ensures var q := PoolNext(p, Classify(k, registration)); var c := p.connections[k];
      && q.workers == p.workers && q.usage == p.usage
      && q.connections == p.connections[k := Connection(c.uid, c.reserved, q.connections[k].kind)]
      && (q.connections[k].kind == Registration <==> registration)
      && (q.connections[k].kind == Ordinary <==> !registration && !c.reserved)
      && (q.connections[k].kind == Closing <==> !registration && c.reserved)
  {
  }

  // ----- captures ---------------------------------------------------------------------------------

  const CAPTURE_BYTES: nat := 256 * 1024 * 1024
  const MAX_CAPTURES: nat := 4
  const INFLIGHT_LIMIT: nat := MAX_CAPTURES * CAPTURE_BYTES + 16 * 1024 * 1024
  const CAPTURES_PER_UID: nat := 2
  const CAPTURES_PER_PID: nat := 1

  datatype Capture = Capture(uid: u64, pid: u64)

  datatype Captures = Captures(bytes: nat, byUid: seq<Slot>, byPid: seq<Slot>, holders: seq<Capture>)

  function CaptureUids(cs: seq<Capture>): (r: seq<u64>)
    ensures |r| == |cs|
  {
    seq(|cs|, k requires 0 <= k < |cs| => cs[k].uid)
  }

  function CapturePids(cs: seq<Capture>): (r: seq<u64>)
    ensures |r| == |cs|
  {
    seq(|cs|, k requires 0 <= k < |cs| => cs[k].pid)
  }

  /** The global limit alone refuses. */
  predicate OverBudget(bytes: nat) {
    bytes > INFLIGHT_LIMIT - CAPTURE_BYTES
  }

  /** reserve_capture_memory. */
  function ReserveCapture(c: Captures, uid: u64, pid: u64): (r: (Captures, bool)) {
    var u, p := Find(c.byUid, uid, 0, None), Find(c.byPid, pid, 0, None);
    if OverBudget(c.bytes) || u.None? || p.None?
       || c.byUid[u.value].count >= CAPTURES_PER_UID || c.byPid[p.value].count >= CAPTURES_PER_PID then (c, false)
    else (Captures(c.bytes + CAPTURE_BYTES, Added(c.byUid, uid), Added(c.byPid, pid), c.holders + [Capture(uid, pid)]), true)
  }

  /** release_capture_memory, by a holder. */
  function ReleaseCapture(c: Captures, k: nat): (r: Captures)
    requires k < |c.holders|
  {
    var h := c.holders[k];
    Captures(if c.bytes >= CAPTURE_BYTES then c.bytes - CAPTURE_BYTES else c.bytes,
             Released(c.byUid, h.uid), Released(c.byPid, h.pid), Without(c.holders, k))
  }

  ghost predicate CapturesSound(c: Captures) {
    && c.bytes == CAPTURE_BYTES * |c.holders| && |c.holders| <= MAX_CAPTURES
    && Records(c.byUid, CaptureUids(c.holders)) && Records(c.byPid, CapturePids(c.holders))
    && (forall uid :: Tally(CaptureUids(c.holders), uid) <= CAPTURES_PER_UID)
    && forall pid :: Tally(CapturePids(c.holders), pid) <= CAPTURES_PER_PID
  }

  lemma ReserveCaptureSound(c: Captures, uid: u64, pid: u64)
    requires CapturesSound(c)
    ensures CapturesSound(ReserveCapture(c, uid, pid).0)
    ensures ReserveCapture(c, uid, pid).1 <==>
      |c.holders| < MAX_CAPTURES && Tally(CaptureUids(c.holders), uid) < CAPTURES_PER_UID
      && Tally(CapturePids(c.holders), pid) < CAPTURES_PER_PID
  {
    hide Find, Added, Records, Tally;
    var uids, pids := CaptureUids(c.holders), CapturePids(c.holders);
    FoundTally(c.byUid, uids, uid);
    FoundTally(c.byPid, pids, pid);
    var (r, ok) := ReserveCapture(c, uid, pid);
    if ok {
      AddedRecords(c.byUid, uids, uid);
      AddedRecords(c.byPid, pids, pid);
      assert CaptureUids(r.holders) == uids + [uid] && CapturePids(r.holders) == pids + [pid];
      forall u
        ensures Tally(uids + [uid], u) <= CAPTURES_PER_UID && Tally(pids + [pid], u) <= CAPTURES_PER_PID
      {
        TallyAppend(uids, uid, u);
        TallyAppend(pids, pid, u);
      }
    }
  }

  lemma ReleaseCaptureSound(c: Captures, k: nat)
    requires CapturesSound(c) && k < |c.holders|
    ensures CapturesSound(ReleaseCapture(c, k)) && |ReleaseCapture(c, k).holders| == |c.holders| - 1
  {
    hide Find, Released, Records, Tally;
    var r, uids, pids := ReleaseCapture(c, k), CaptureUids(c.holders), CapturePids(c.holders);
    ReleasedRecords(c.byUid, uids, k);
    ReleasedRecords(c.byPid, pids, k);
    assert CaptureUids(r.holders) == Without(uids, k) && CapturePids(r.holders) == Without(pids, k);
    forall u
      ensures Tally(Without(uids, k), u) <= CAPTURES_PER_UID && Tally(Without(pids, k), u) <= CAPTURES_PER_PID
    {
      TallyWithout(uids, k, u);
      TallyWithout(pids, k, u);
    }
  }

  datatype CaptureStep = Reserving(uid: u64, pid: u64) | Releasing(k: nat)

  ghost predicate CaptureRuns(c: Captures, steps: seq<CaptureStep>, last: Captures)
    decreases |steps|
  {
    if steps == [] then last == c
    else
      (steps[0].Releasing? ==> steps[0].k < |c.holders|)
      && CaptureRuns(if steps[0].Reserving? then ReserveCapture(c, steps[0].uid, steps[0].pid).0
                     else ReleaseCapture(c, steps[0].k), steps[1..], last)
  }

  lemma {:induction false} CaptureRunSound(c: Captures, steps: seq<CaptureStep>, last: Captures)
    requires CapturesSound(c) && CaptureRuns(c, steps, last)
    ensures CapturesSound(last)
    decreases |steps|
  {
    hide CapturesSound, ReserveCapture, ReleaseCapture;
    if steps != [] {
      match steps[0] {
        case Reserving(uid, pid) =>
          ReserveCaptureSound(c, uid, pid);
          CaptureRunSound(ReserveCapture(c, uid, pid).0, steps[1..], last);
        case Releasing(k) =>
          ReleaseCaptureSound(c, k);
          CaptureRunSound(ReleaseCapture(c, k), steps[1..], last);
      }
    }
  }

  function CaptureStart(): (c: Captures) {
    Captures(0, EmptyTable(), EmptyTable(), [])
  }

  lemma CaptureStartSound()
    ensures CapturesSound(CaptureStart())
  {
    EmptyRecords();
    assert CaptureUids([]) == [] && CapturePids([]) == [];
  }

  /** Never more than four captures, two of a uid and one of a process, and the bytes are theirs. */
  lemma CaptureLimits(steps: seq<CaptureStep>, c: Captures, uid: u64, pid: u64)
    requires CaptureRuns(CaptureStart(), steps, c)
    ensures |c.holders| <= 4 && c.bytes == CAPTURE_BYTES * |c.holders|
    ensures Usage(c.byUid, uid) == Tally(CaptureUids(c.holders), uid) <= 2
    ensures Usage(c.byPid, pid) == Tally(CapturePids(c.holders), pid) <= 1
    ensures Unique(c.byUid) && Unique(c.byPid) && Total(c.byUid) == |c.holders| == Total(c.byPid)
  {
    hide CaptureRuns, Usage, Tally, Unique, Total;
    CaptureStartSound();
    CaptureRunSound(CaptureStart(), steps, c);
  }

  lemma {:induction false} ThreeHolders(uids: seq<u64>, uid: u64)
    requires |uids| == MAX_CAPTURES && Tally(uids, uid) < CAPTURES_PER_UID
    requires forall u :: Tally(uids, u) <= CAPTURES_PER_UID
    ensures exists a, b :: a in uids && b in uids && a != b && a != uid && b != uid
  {
    var w, x, y, z := uids[0], uids[1], uids[2], uids[3];
    TallyFour(uids, uid);
    TallyFour(uids, w);
    TallyFour(uids, x);
    TallyFour(uids, y);
    TallyFour(uids, z);
    if w != uid && x != uid && w != x {
      assert w in uids && x in uids;
    } else if w != uid && y != uid && w != y {
      assert w in uids && y in uids;
    } else if w != uid && z != uid && w != z {
      assert w in uids && z in uids;
    } else if x != uid && y != uid && x != y {
      assert x in uids && y in uids;
    } else {
      assert x != uid && z != uid && x != z;
      assert x in uids && z in uids;
    }
  }

  lemma TallyFour(uids: seq<u64>, key: u64)
    requires |uids| == 4
    ensures Tally(uids, key) == (if uids[0] == key then 1 else 0) + (if uids[1] == key then 1 else 0)
                              + (if uids[2] == key then 1 else 0) + (if uids[3] == key then 1 else 0)
  {
    EmptyTally(key);
    TallyAppend([], uids[0], key);
    TallyAppend([] + [uids[0]], uids[1], key);
    TallyAppend([] + [uids[0]] + [uids[1]], uids[2], key);
    TallyAppend([] + [uids[0]] + [uids[1]] + [uids[2]], uids[3], key);
    assert uids == [] + [uids[0]] + [uids[1]] + [uids[2]] + [uids[3]];
  }

  /** A uid below its own cap is refused by the global limit only while two other uids hold captures. */
  lemma SecondUserCaptures(steps: seq<CaptureStep>, c: Captures, uid: u64)
    requires CaptureRuns(CaptureStart(), steps, c)
    requires OverBudget(c.bytes) && Usage(c.byUid, uid) < CAPTURES_PER_UID
    ensures exists a, b :: a != b && a != uid && b != uid && Usage(c.byUid, a) > 0 && Usage(c.byUid, b) > 0
  {
    hide CaptureRuns, Usage, Tally, Unique, Total;
    CaptureStartSound();
    CaptureRunSound(CaptureStart(), steps, c);
    var uids := CaptureUids(c.holders);
    ThreeHolders(uids, uid);
    var a, b :| a in uids && b in uids && a != b && a != uid && b != uid;
    TallyMember(uids, a);
    TallyMember(uids, b);
  }

  lemma {:induction false} TallyMember(holders: seq<u64>, key: u64)
    requires key in holders
    ensures Tally(holders, key) > 0
    decreases |holders|
  {
    if holders[|holders| - 1] != key {
      TallyMember(holders[..|holders| - 1], key);
    }
  }

  // ----- assemblies and KWin requests -----------------------------------------------------------------

  /** A budget kept by one table: what each holder costs, how much there is, and how many a key may hold. */
  datatype Terms = Terms(cost: nat, limit: nat, perKey: nat)

  const ASSEMBLY := Terms(4 * 1024 * 1024, 64 * 1024 * 1024, 4)
  const KWIN := Terms(0, 0, 4)

  datatype Quota = Quota(bytes: nat, table: seq<Slot>, holders: seq<u64>)

  /** reserve_assembly_memory and reserve_kwin_slot. */
  function Reserve(t: Terms, q: Quota, key: u64): (r: (Quota, bool)) {
    var f := Find(q.table, key, 0, None);
    if q.bytes + t.cost > t.limit || f.None? || q.table[f.value].count >= t.perKey then (q, false)
    else (Quota(q.bytes + t.cost, Added(q.table, key), q.holders + [key]), true)
  }

  /** release_assembly_memory and release_kwin_slot, by a holder. */
  function Release(t: Terms, q: Quota, k: nat): (r: Quota)
    requires k < |q.holders|
  {
    Quota(if q.bytes >= t.cost then q.bytes - t.cost else q.bytes, Released(q.table, q.holders[k]), Without(q.holders, k))
  }

  ghost predicate QuotaSound(t: Terms, q: Quota) {
    && q.bytes == t.cost * |q.holders| <= t.limit && Records(q.table, q.holders)
    && forall key :: Tally(q.holders, key) <= t.perKey
  }

  lemma ReserveSound(t: Terms, q: Quota, key: u64)
    requires QuotaSound(t, q)
    ensures QuotaSound(t, Reserve(t, q, key).0)
    ensures |q.holders| < SLOTS ==>
      (Reserve(t, q, key).1 <==> q.bytes + t.cost <= t.limit && Tally(q.holders, key) < t.perKey)
  {
    hide Find, Added, Records, Tally;
    FoundTally(q.table, q.holders, key);
    var (r, ok) := Reserve(t, q, key);
    if ok {
      AddedRecords(q.table, q.holders, key);
      assert t.cost * (|q.holders| + 1) == t.cost * |q.holders| + t.cost;
      forall k
        ensures Tally(q.holders + [key], k) <= t.perKey
      {
        TallyAppend(q.holders, key, k);
      }
    }
  }

  lemma ReleaseSound(t: Terms, q: Quota, k: nat)
    requires QuotaSound(t, q) && k < |q.holders|
    ensures QuotaSound(t, Release(t, q, k))
  {
    hide Find, Released, Records, Tally;
    ReleasedRecords(q.table, q.holders, k);
    assert t.cost * |q.holders| == t.cost * (|q.holders| - 1) + t.cost;
    assert |Without(q.holders, k)| == |q.holders| - 1;
    forall key
      ensures Tally(Without(q.holders, k), key) <= t.perKey
    {
      TallyWithout(q.holders, k, key);
    }
  }

  datatype QuotaStep = Reserving1(key: u64) | Releasing1(k: nat)

  ghost predicate QuotaRuns(t: Terms, q: Quota, steps: seq<QuotaStep>, last: Quota)
    decreases |steps|
  {
    if steps == [] then last == q
    else
      (steps[0].Releasing1? ==> steps[0].k < |q.holders|)
      && QuotaRuns(t, if steps[0].Reserving1? then Reserve(t, q, steps[0].key).0 else Release(t, q, steps[0].k),
                   steps[1..], last)
  }

  lemma {:induction false} QuotaRunSound(t: Terms, q: Quota, steps: seq<QuotaStep>, last: Quota)
    requires QuotaSound(t, q) && QuotaRuns(t, q, steps, last)
    ensures QuotaSound(t, last)
    decreases |steps|
  {
    hide QuotaSound, Reserve, Release;
    if steps != [] {
      match steps[0] {
        case Reserving1(key) =>
          ReserveSound(t, q, key);
          QuotaRunSound(t, Reserve(t, q, key).0, steps[1..], last);
        case Releasing1(k) =>
          ReleaseSound(t, q, k);
          QuotaRunSound(t, Release(t, q, k), steps[1..], last);
      }
    }
  }

  /** At most sixteen requests are being assembled, four of a uid; at most four KWin requests of a process are under way. */
  lemma QuotaLimits(assembling: seq<QuotaStep>, a: Quota, asking: seq<QuotaStep>, k: Quota, key: u64)
    requires QuotaRuns(ASSEMBLY, Quota(0, EmptyTable(), []), assembling, a)
    requires QuotaRuns(KWIN, Quota(0, EmptyTable(), []), asking, k)
    ensures |a.holders| <= 16 && a.bytes == ASSEMBLY.cost * |a.holders| && Usage(a.table, key) == Tally(a.holders, key) <= 4
    ensures Usage(k.table, key) == Tally(k.holders, key) <= 4
  {
    hide QuotaRuns, Usage, Tally, Unique, Total;
    QuotaStartSound(ASSEMBLY);
    QuotaStartSound(KWIN);
    QuotaRunSound(ASSEMBLY, Quota(0, EmptyTable(), []), assembling, a);
    QuotaRunSound(KWIN, Quota(0, EmptyTable(), []), asking, k);
  }

  lemma EmptyTally(key: u64)
    ensures Tally([], key) == 0
  {
  }

  // ----- the table in memory ------------------------------------------------------------------------------

  class UsageTable {
    const slots: array<Slot>

    ghost predicate Valid()
      reads this, slots
    {
      slots.Length == SLOTS
    }

    constructor ()
      ensures Valid() && slots[..] == EmptyTable() && fresh(slots)
    {
      slots := new Slot[SLOTS](_ => EMPTY);
      new;
      assert slots[..] == EmptyTable();
    }

    /** find_usage_slot. */
    method FindSlot(key: u64) returns (r: Option<nat>)
      requires Valid()
      ensures r == Find(slots[..], key, 0, None)
    {
      var free: Option<nat> := None;
      var index := 0;
      while index < slots.Length
        invariant 0 <= index <= slots.Length
        invariant free.Some? ==> free.value < index && slots[free.value].count == 0
        invariant Find(slots[..], key, 0, None) == Find(slots[..], key, index, free)
      {
        if slots[index].count != 0 && slots[index].key == key {
          return Some(index);
        }
        if free.None? && slots[index].count == 0 {
          free := Some(index);
        }
        index := index + 1;
      }
      r := free;
    }

    /** add_usage, if the key is below the limit. */
    method Admit(key: u64, limit: nat) returns (ok: bool)
      requires Valid() && Unique(slots[..])
      modifies slots
      ensures Valid() && Unique(slots[..])
      ensures ok <==> Find(old(slots[..]), key, 0, None).Some? && Usage(old(slots[..]), key) < limit
      ensures slots[..] == if ok then Added(old(slots[..]), key) else old(slots[..])
    {
      hide Find, Usage;
      var f := FindSlot(key);
      if f.None? {
        return false;
      }
      FindCount(slots[..], key);
      if slots[f.value].count >= limit {
        return false;
      }
      AddedExact(slots[..], key, key);
      ghost var before := slots[..];
      slots[f.value] := Slot(key, slots[f.value].count + 1);
      assert slots[..] == before[f.value := slots[f.value]];
      ok := true;
    }

    /** release_usage. */
    method Return(key: u64)
      requires Valid()
      modifies slots
      ensures Valid() && slots[..] == Released(old(slots[..]), key)
    {
      hide Find;
      var f := FindSlot(key);
      if f.Some? && slots[f.value].count != 0 && slots[f.value].key == key {
        ghost var before := slots[..];
        slots[f.value] := Slot(key, slots[f.value].count - 1);
        assert slots[..] == before[f.value := slots[f.value]];
      }
    }
  }

  /** The accept loop's side of the pool: a connection comes in, and goes. */
  class WorkerPool {
    var workers: nat
    const usage: UsageTable
    ghost var connections: seq<Connection>

    ghost predicate Valid()
      reads this, usage, usage.slots
    {
      usage.Valid() && PoolSound(Value())
    }

    ghost function Value(): (p: Pool)
      reads this, usage, usage.slots
    {
      Pool(workers, usage.slots[..], connections)
    }

    constructor ()
      ensures Valid() && Value() == PoolStart() && fresh(usage) && fresh(usage.slots)
    {
      workers, connections := 0, [];
      usage := new UsageTable();
      new;
      PoolStartSound();
    }

    /** reserve_worker. */
    method ReserveWorker(uid: u64) returns (a: Admission)
      requires Valid()
      modifies this, usage.slots
      ensures Valid() && Value() == PoolNext(old(Value()), Accept(uid))
      ensures a == AdmitWorker(old(workers), Tally(Uids(old(connections)), uid))
    {
      hide Find, Usage, Tally, PoolSound;
      AcceptSound(Value(), uid);
      PoolTable(Value());
      FoundTally(usage.slots[..], Uids(connections), uid);
      var f := usage.FindSlot(uid);
      if f.None? {
        return Refused;
      }
      a := AdmitWorker(workers, usage.slots[f.value].count);
      if a != Refused {
        ghost var before := usage.slots[..];
        usage.slots[f.value] := Slot(uid, usage.slots[f.value].count + 1);
        assert usage.slots[..] == before[f.value := usage.slots[f.value]];
        workers, connections := workers + 1, connections + [Connection(uid, a == Reserved, Unknown)];
      }
    }

    /** The end of connection_worker. */
    method Leave(uid: u64, ghost k: nat)
      requires Valid() && k < |connections| && connections[k].uid == uid
      modifies this, usage.slots
      ensures Valid() && Value() == PoolNext(old(Value()), PoolStep.Leave(k))
    {
      hide Find, Usage, Tally, PoolSound, Released;
      PoolTable(Value());
      PoolNextSound(Value(), PoolStep.Leave(k));
      workers := workers - 1;
      usage.Return(uid);
      connections := Without(connections, k);
    }
  }

  lemma PoolTable(p: Pool)
    requires PoolSound(p)
    ensures Records(p.usage, Uids(p.connections)) && p.workers == |p.connections| <= MAX_WORKERS
  {
  }

  /** The capture budget in memory. */
  class CaptureBudget {
    var bytes: nat
    const byUid: UsageTable
    const byPid: UsageTable
    ghost var holders: seq<Capture>

    ghost predicate Valid()
      reads this, byUid, byUid.slots, byPid, byPid.slots
    {
      byUid.Valid() && byPid.Valid() && byUid.slots != byPid.slots && CapturesSound(Value())
    }

    ghost function Value(): (c: Captures)
      reads this, byUid, byUid.slots, byPid, byPid.slots
    {
      Captures(bytes, byUid.slots[..], byPid.slots[..], holders)
    }

    constructor ()
      ensures Valid() && Value() == CaptureStart()
      ensures fresh(byUid) && fresh(byUid.slots) && fresh(byPid) && fresh(byPid.slots)
    {
      bytes, holders := 0, [];
      byUid := new UsageTable();
      byPid := new UsageTable();
      new;
      CaptureStartSound();
    }

    /** reserve_capture_memory. */
    method ReserveMemory(uid: u64, pid: u64) returns (ok: bool)
      requires Valid()
      modifies this, byUid.slots, byPid.slots
      ensures Valid() && (Value(), ok) == ReserveCapture(old(Value()), uid, pid)
    {
      hide Find, CapturesSound;
      ReserveCaptureSound(Value(), uid, pid);
      var u := byUid.FindSlot(uid);
      var p := byPid.FindSlot(pid);
      if bytes <= INFLIGHT_LIMIT - CAPTURE_BYTES && u.Some? && p.Some?
         && byUid.slots[u.value].count < CAPTURES_PER_UID && byPid.slots[p.value].count < CAPTURES_PER_PID {
        ghost var us, ps := byUid.slots[..], byPid.slots[..];
        bytes := bytes + CAPTURE_BYTES;
        byUid.slots[u.value] := Slot(uid, byUid.slots[u.value].count + 1);
        byPid.slots[p.value] := Slot(pid, byPid.slots[p.value].count + 1);
        assert byUid.slots[..] == us[u.value := byUid.slots[u.value]];
        assert byPid.slots[..] == ps[p.value := byPid.slots[p.value]];
        holders := holders + [Capture(uid, pid)];
        return true;
      }
      ok := false;
    }

    /** release_capture_memory, by a holder. */
    method ReleaseMemory(uid: u64, pid: u64, ghost k: nat)
      requires Valid() && k < |holders| && holders[k] == Capture(uid, pid)
      modifies this, byUid.slots, byPid.slots
      ensures Valid() && Value() == ReleaseCapture(old(Value()), k)
    {
      hide Find, CapturesSound, Released;
      ReleaseCaptureSound(Value(), k);
      if bytes >= CAPTURE_BYTES {
        bytes := bytes - CAPTURE_BYTES;
      }
      byUid.Return(uid);
      byPid.Return(pid);
      holders := Without(holders, k);
    }
  }

  /** A budget kept by one table: the assemblies of requests, and the KWin requests under way. */
  class QuotaBudget {
    const terms: Terms
    var bytes: nat
    const table: UsageTable
    ghost var holders: seq<u64>

    ghost predicate Valid()
      reads this, table, table.slots
    {
      table.Valid() && QuotaSound(terms, Value())
    }

    ghost function Value(): (q: Quota)
      reads this, table, table.slots
    {
      Quota(bytes, table.slots[..], holders)
    }

    constructor (terms: Terms)
      ensures Valid() && this.terms == terms && Value() == Quota(0, EmptyTable(), [])
      ensures fresh(table) && fresh(table.slots)
    {
      this.terms, bytes, holders := terms, 0, [];
      table := new UsageTable();
      new;
      QuotaStartSound(terms);
    }

    /** reserve_assembly_memory and reserve_kwin_slot. */
    method ReserveFor(key: u64) returns (ok: bool)
      requires Valid()
      modifies this, table.slots
      ensures Valid() && (Value(), ok) == Reserve(terms, old(Value()), key)
    {
      hide Find, Usage, Tally, Added, QuotaSound;
      ReserveSound(terms, Value(), key);
      QuotaTable(terms, Value());
      if bytes + terms.cost > terms.limit {
        return false;
      }
      FoundUsage(table.slots[..], key);
      ok := table.Admit(key, terms.perKey);
      if ok {
        bytes, holders := bytes + terms.cost, holders + [key];
      }
    }

    /** release_assembly_memory and release_kwin_slot, by a holder. */
    method ReleaseBy(key: u64, ghost k: nat)
      requires Valid() && k < |holders| && holders[k] == key
      modifies this, table.slots
      ensures Valid() && Value() == Release(terms, old(Value()), k)
    {
      hide Find, Released, QuotaSound;
      ReleaseSound(terms, Value(), k);
      if bytes >= terms.cost {
        bytes := bytes - terms.cost;
      }
      table.Return(key);
      holders := Without(holders, k);
    }
  }

  lemma QuotaTable(t: Terms, q: Quota)
    requires QuotaSound(t, q)
    ensures Unique(q.table)
  {
  }

  lemma FoundUsage(slots: seq<Slot>, key: u64)
    requires Unique(slots)
    ensures var f := Find(slots, key, 0, None); f.Some? ==> slots[f.value].count == Usage(slots, key)
  {
    if Find(slots, key, 0, None).Some? {
      FindCount(slots, key);
    }
  }

  lemma QuotaStartSound(t: Terms)
    ensures QuotaSound(t, Quota(0, EmptyTable(), []))
  {
    EmptyRecords();
    forall key: u64
      ensures Tally([], key) == 0
    {
      EmptyTally(key);
    }
  }
}

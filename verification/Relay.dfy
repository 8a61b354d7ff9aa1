module Relay {

  // Many threads over one socket: every critical section is a step, waiting is explicit, any interleaving is allowed.

  import opened Bytes
  import opened Frames

  const PENDING: nat := 128
  const IDS: nat := 0x1_0000_0000_0000_0000
  const CAPTURE_FD: u16 := 0x8000

  /** A response frame, and where in the sequence of responses read it came. */
  datatype Reply = Reply(index: nat, frame: Frame)

  datatype Slot = Vacant | Taken(id: nat, opcode: u16, done: Option<Reply>)

  datatype Result = Answered(reply: Reply) | Busy | TimedOut | Unavailable

  datatype Pc =
    | Packed                       // between taking a slot and trying to write
    | WaitWrite(notified: bool)    // waiting for the writer
    | Writing
    | Loop                         // about to enter the read loop
    | WaitRead(notified: bool)     // waiting for the reader
    | Reading
    | Delivered                    // a frame was handed over, the reader role still held
    | Over(result: Result)

  /** One call. Id zero is a call that was never given one; base counts the responses read before it began. */
  datatype Thread = Thread(pc: Pc, slot: nat, id: nat, frame: Frame, base: nat, sent: bool, attempted: bool)

  /** A frame begun: the frame, and how many of its bytes are out. */
  datatype Begun = Begun(frame: Frame, size: nat)

  datatype State = State(
    pending: seq<Slot>, nextId: nat,
    writing: Option<nat>, reading: Option<nat>, broken: bool,   // the flags, with the thread that set each
    threads: seq<Thread>,
    out: seq<byte>, written: seq<Frame>, begun: Option<Begun>,
    consumed: seq<byte>, responses: seq<Frame>, rest: seq<byte>)

  function Start(): (s: State) {
    State(seq(PENDING, _ => Vacant), 1, None, None, false, [], [], [], None, [], [], [])
  }

  // ----- pieces of a step -----------------------------------------------------------

  function FirstVacant(pending: seq<Slot>, i: nat): (k: nat)
    requires i <= |pending|
    ensures i <= k <= |pending| && (k < |pending| ==> pending[k].Vacant?)
    decreases |pending| - i
  {
    if i == |pending| || pending[i].Vacant? then i else FirstVacant(pending, i + 1)
  }

  /** The slot a response belongs to: in use, not answered, and of that id. */
  predicate Awaits(slot: Slot, id: nat) {
    slot.Taken? && slot.done.None? && slot.id == id
  }

  function Match(pending: seq<Slot>, id: nat, i: nat): (k: nat)
    requires i <= |pending|
    ensures i <= k <= |pending| && (k < |pending| ==> Awaits(pending[k], id))
    ensures forall j :: i <= j < k ==> !Awaits(pending[j], id)
    decreases |pending| - i
  {
    if i == |pending| || Awaits(pending[i], id) then i else Match(pending, id, i + 1)
  }

  /** The search for a slot at the start of a call. */
  method FindVacant(pending: array<Slot>) returns (k: nat)
    ensures k == FirstVacant(pending[..], 0)
  {
    k := 0;
    while k < pending.Length
      invariant 0 <= k <= pending.Length
      invariant FirstVacant(pending[..], 0) == FirstVacant(pending[..], k)
    {
      if pending[k].Vacant? {
        return;
      }
      k := k + 1;
    }
  }

  /** The search of read_one, and the answer stored: at most one slot changes, and only its answer. */
  method StoreAnswer(pending: array<Slot>, id: nat, reply: Reply) returns (matched: bool)
    modifies pending
    ensures var k := Match(old(pending[..]), id, 0);
      && (matched <==> k < pending.Length)
      && pending[..] == if matched then old(pending[..])[k := old(pending[k]).(done := Some(reply))] else old(pending[..])
  {
    var index := 0;
    while index < pending.Length
      invariant 0 <= index <= pending.Length
      invariant pending[..] == old(pending[..])
      invariant Match(pending[..], id, 0) == Match(pending[..], id, index)
    {
      if Awaits(pending[index], id) {
        ghost var before := pending[..];
        pending[index] := pending[index].(done := Some(reply));
        assert pending[..] == before[index := pending[index]];
        return true;
      }
      index := index + 1;
    }
    matched := false;
  }

  function Woken(th: Thread): (r: Thread) {
    match th.pc
    case WaitWrite(_) => th.(pc := WaitWrite(true))
    case WaitRead(_) => th.(pc := WaitRead(true))
    case _ => th
  }

  /** pthread_cond_broadcast. */
  function Broadcast(threads: seq<Thread>): (r: seq<Thread>)
    ensures |r| == |threads| && forall t :: 0 <= t < |r| ==> r[t] == Woken(threads[t])
  {
    seq(|threads|, t requires 0 <= t < |threads| => Woken(threads[t]))
  }

  function Go(s: State, t: nat, pc: Pc): (r: State)
    requires t < |s.threads|
    ensures |r.threads| == |s.threads|
  {
    s.(threads := s.threads[t := s.threads[t].(pc := pc)])
  }

  /** What the call returns, decided in the critical section that gives its slot back. */
  function Outcome(th: Thread, slot: Slot): (r: Result) {
    if slot.Taken? && slot.done.Some? then Answered(slot.done.value)
    else if !th.sent && !th.attempted then Busy
    else TimedOut
  }

  function Finish(s: State, t: nat): (r: State)
    requires t < |s.threads| && s.threads[t].slot < |s.pending|
    ensures |r.threads| == |s.threads|
  {
    var th := s.threads[t];
    s.(pending := s.pending[th.slot := Vacant],
       threads := Broadcast(s.threads[t := th.(pc := Over(Outcome(th, s.pending[th.slot])))]))
  }

  /** The head of the read loop, with the lock held. */
  function Top(s: State, t: nat, expired: bool): (r: State)
    requires t < |s.threads| && s.threads[t].slot < |s.pending|
    ensures |r.threads| == |s.threads|
  {
    var th := s.threads[t];
    var slot := s.pending[th.slot];
    if !th.sent || (slot.Taken? && slot.done.Some?) || s.broken || expired then Finish(s, t)
    else if s.reading.None? then Go(s.(reading := Some(t)), t, Reading)
    else Go(s, t, WaitRead(false))
  }

  /** Behind the wait for the writer: write if nobody does, the channel is whole and there is time. */
  function Decide(s: State, t: nat, inTime: bool): (r: State)
    requires t < |s.threads|
    ensures |r.threads| == |s.threads|
  {
    var th := s.threads[t];
    if s.writing.None? && !s.broken && inTime
    then s.(writing := Some(t), begun := Some(Begun(th.frame, 0)),
            threads := s.threads[t := th.(pc := Writing, sent := true, attempted := true)])
    else s.(threads := s.threads[t := th.(pc := Loop, sent := false)])
  }

  /** The wait for the writer, from its condition. */
  function Queue(s: State, t: nat, inTime: bool): (r: State)
    requires t < |s.threads|
    ensures |r.threads| == |s.threads|
  {
    if s.writing.Some? && !s.broken then Go(s, t, WaitWrite(false)) else Decide(s, t, inTime)
  }

  /** What read_one checks of a header. */
  predicate GoodHeader(b: seq<byte>)
    requires |b| >= HEADER_SIZE
  {
    var f := Spelled(b);
    && f.magic == MAGIC && f.major == MAJOR && f.minor == MINOR
    && (f.flags == 0 || f.flags == CAPTURE_FD)
    && 8 <= LengthField(b) <= MAX_TEXT_BYTES + 8
    && (f.flags == CAPTURE_FD ==> LengthField(b) == 12)
  }

  // ----- steps --------------------------------------------------------------------------

  datatype Step =
    | Begin(frame: Frame)
    | PackFails(t: nat)
    | TryWrite(t: nat, inTime: bool)
    | WakeWrite(t: nat, timedOut: bool, inTime: bool)
    | Put(t: nat, count: nat)
    | WriteEnd(t: nat)
    | EnterLoop(t: nat, expired: bool)
    | WakeRead(t: nat, timedOut: bool, expired: bool)
    | Receive(t: nat, bytes: seq<byte>)
    | Deliver(t: nat)
    | ReadEnd(t: nat, ok: bool, expired: bool)
    | Retire

  predicate At(s: State, t: nat, pc: Pc) {
    t < |s.threads| && s.threads[t].pc == pc
  }

  /** A complete frame that read_one accepts. */
  predicate Ready(s: State) {
    && |s.rest| >= HEADER_SIZE && |s.rest| == Needed(s.rest) && GoodHeader(s.rest)
    && (Spelled(s.rest).flags == CAPTURE_FD ==> CaptureFits(s.pending, Spelled(s.rest)))
  }

  const CAPTURES: set<u16> := {0x2000, 0x2001, 0x2002}
  const MAX_CAPTURE_TAIL: nat := 256 * 1024 * 1024 + 20

  /** A response that comes with a descriptor: a success, of a believable size, to a capture. */
  predicate CaptureFits(pending: seq<Slot>, f: Frame) {
    && |f.payload| == 12 && FromLe32(f.payload[..4]) == 0 && 20 <= FromLe32(f.payload[8..12]) <= MAX_CAPTURE_TAIL
    && var k := Match(pending, f.requestId, 0); k < |pending| ==> pending[k].opcode in CAPTURES
  }

  predicate Enabled(s: State, step: Step) {
    match step
    case Begin(frame) => Packable(frame) && s.nextId < IDS
    case PackFails(t) => At(s, t, Packed)
    case TryWrite(t, _) => At(s, t, Packed)
    case WakeWrite(t, _, _) => t < |s.threads| && s.threads[t].pc.WaitWrite?
    case Put(t, count) => At(s, t, Writing) && s.begun.Some? && Packable(s.begun.value.frame)
                          && s.begun.value.size + count <= |Pack(s.begun.value.frame)|
    case WriteEnd(t) => At(s, t, Writing) && s.begun.Some? && Packable(s.begun.value.frame)
    case EnterLoop(t, _) => At(s, t, Loop)
    case WakeRead(t, _, _) => t < |s.threads| && s.threads[t].pc.WaitRead?
    case Receive(t, bytes) =>
      // a header of the right shape before any of the body
      At(s, t, Reading) && |s.rest| + |bytes| <= Needed(s.rest) && (|s.rest| >= HEADER_SIZE ==> GoodHeader(s.rest))
    case Deliver(t) => At(s, t, Reading) && Ready(s)
    // with nothing read: a deadline or a failure; with part of a frame read: a failure; after delivery: neither
    case ReadEnd(t, ok, _) => (At(s, t, Reading) && (ok ==> s.rest == [])) || (At(s, t, Delivered) && ok)
    case Retire => true
  }

  function BeginCall(s: State, frame: Frame): (r: State)
    requires s.nextId < IDS
  {
    var k := FirstVacant(s.pending, 0);
    if s.broken then s.(threads := s.threads + [Thread(Over(Unavailable), 0, 0, frame, 0, false, false)])
    else if k == |s.pending| then s.(threads := s.threads + [Thread(Over(Busy), 0, 0, frame, 0, false, false)])
    else s.(pending := s.pending[k := Taken(s.nextId, frame.opcode, None)], nextId := s.nextId + 1,
            threads := s.threads
              + [Thread(Packed, k, s.nextId, frame.(requestId := s.nextId), |s.responses|, false, false)])
  }

  function EndWrite(s: State, t: nat): (r: State)
    requires t < |s.threads| && s.begun.Some? && Packable(s.begun.value.frame)
  {
    var f := s.begun.value.frame;
    var ok := s.begun.value.size == |Pack(f)|;
    var threads := Broadcast(s.threads[t := s.threads[t].(pc := Loop, sent := ok)]);
    if ok then s.(writing := None, begun := None, written := s.written + [f], threads := threads)
    else s.(writing := None, broken := true, threads := threads)
  }

  function Hand(s: State, t: nat): (r: State)
    requires t < |s.threads| && |s.rest| >= HEADER_SIZE
  {
    var f := Spelled(s.rest);
    var k := Match(s.pending, f.requestId, 0);
    var pending := if k == |s.pending| then s.pending
                   else s.pending[k := s.pending[k].(done := Some(Reply(|s.responses|, f)))];
    Go(s, t, Delivered).(pending := pending, responses := s.responses + [f], rest := [])
  }

  /** The end of a turn as reader, and the head of the loop, in one critical section. */
  function EndRead(s: State, t: nat, ok: bool): (r: State)
    requires t < |s.threads|
    ensures |r.threads| == |s.threads|
  {
    s.(reading := None, broken := s.broken || !ok, threads := Broadcast(s.threads[t := s.threads[t].(pc := Loop)]))
  }

  /** The slot a live call holds is one of the table's. */
  ghost predicate Shaped(s: State) {
    |s.pending| == PENDING && forall t :: 0 <= t < |s.threads| ==> s.threads[t].slot < PENDING
  }

  ghost function Next(s: State, step: Step): (r: State)
    requires Enabled(s, step) && Shaped(s)
  {
    match step
    case Begin(frame) => BeginCall(s, frame)
    case PackFails(t) => s.(threads := s.threads[t := s.threads[t].(pc := Loop, sent := false)])
    case TryWrite(t, inTime) => Queue(s, t, inTime)
    case WakeWrite(t, timedOut, inTime) => if timedOut then Decide(s, t, inTime) else Queue(s, t, inTime)
    case Put(t, count) =>
      var b := s.begun.value;
      s.(out := s.out + Pack(b.frame)[b.size..b.size + count], begun := Some(Begun(b.frame, b.size + count)))
    case WriteEnd(t) => EndWrite(s, t)
    case EnterLoop(t, expired) => Top(s, t, expired)
    case WakeRead(t, timedOut, expired) => if timedOut then Finish(s, t) else Top(s, t, expired)
    case Receive(t, bytes) => s.(consumed := s.consumed + bytes, rest := s.rest + bytes)
    case Deliver(t) => Hand(s, t)
    case ReadEnd(t, ok, expired) => Top(EndRead(s, t, ok), t, expired)
    case Retire => s.(broken := true, threads := Broadcast(s.threads))
  }

  // ----- what holds in every reachable state --------------------------------------------------

  /** A reply is the first response of that id read since the call began. */
  ghost predicate FirstAnswer(responses: seq<Frame>, id: nat, base: nat, r: Reply) {
    && base <= r.index < |responses| && responses[r.index] == r.frame && r.frame.requestId == id
    && forall j :: base <= j < r.index ==> responses[j].requestId != id
  }

  /** The slot of a live call bears its id, and holds its answer exactly if one has been read. */
  ghost predicate Holding(s: State, th: Thread) {
    && th.slot < |s.pending| && th.base <= |s.responses| && 1 <= th.id < s.nextId
    && s.pending[th.slot].Taken? && s.pending[th.slot].id == th.id
    && (s.pending[th.slot].done.Some? ==> FirstAnswer(s.responses, th.id, th.base, s.pending[th.slot].done.value))
    && (s.pending[th.slot].done.None? ==> forall j :: th.base <= j < |s.responses| ==> s.responses[j].requestId != th.id)
  }

  ghost predicate Concluded(s: State, th: Thread)
    requires th.pc.Over?
  {
    && (th.pc.result.Answered? ==> th.id >= 1 && FirstAnswer(s.responses, th.id, th.base, th.pc.result.reply))
    && (th.pc.result.Busy? || th.pc.result.Unavailable? ==> !th.attempted)
    && (th.pc.result.TimedOut? ==> th.attempted)
  }

  /** Where each kind of waiting or working thread leaves the flags. */
  ghost predicate Placed(s: State, t: nat)
    requires t < |s.threads|
  {
    var th := s.threads[t];
    && (th.pc == Writing <==> s.writing == Some(t))
    && (th.pc == Reading || th.pc == Delivered <==> s.reading == Some(t))
    && (th.pc == WaitWrite(false) ==> s.writing.Some? && !s.broken)
    && (th.pc == WaitRead(false) ==> s.reading.Some? && !s.broken)
    && (th.pc == Delivered ==> s.rest == [])
    && (th.pc == Writing ==> s.begun.Some? && s.begun.value.frame == th.frame)
    && (th.pc == Packed || th.pc.WaitWrite? ==> !th.attempted && !th.sent)
    && (th.sent ==> th.attempted)
  }

  /** What was never attempted has no byte on the wire. */
  ghost predicate Untouched(s: State, th: Thread) {
    && th.id < s.nextId && (th.id != 0 ==> th.frame.requestId == th.id) && Packable(th.frame)
    && (th.id == 0 ==> !th.attempted)
    && (!th.attempted && th.id != 0 ==>
          (forall k :: 0 <= k < |s.written| ==> s.written[k].requestId != th.id)
          && (s.begun.Some? ==> s.begun.value.frame.requestId != th.id))
  }

  ghost predicate ThreadOk(s: State, t: nat)
    requires t < |s.threads|
  {
    && Placed(s, t) && Untouched(s, s.threads[t])
    && (if s.threads[t].pc.Over? then Concluded(s, s.threads[t]) else Holding(s, s.threads[t]))
  }

  ghost predicate AllOk(s: State) {
    forall t :: 0 <= t < |s.threads| ==> ThreadOk(s, t)
  }

  /** Ids are issued in order and never again. */
  ghost predicate Distinct(s: State) {
    && 1 <= s.nextId <= IDS
    && (forall t, u :: 0 <= t < u < |s.threads| && s.threads[t].id != 0 && s.threads[u].id != 0 ==>
          s.threads[t].id < s.threads[u].id)
    && (forall i :: 0 <= i < |s.pending| && s.pending[i].Taken? ==> 1 <= s.pending[i].id < s.nextId)
    && (forall i, j :: 0 <= i < j < |s.pending| && s.pending[i].Taken? && s.pending[j].Taken? ==>
          s.pending[i].id != s.pending[j].id)
  }

  function Tail(begun: Option<Begun>): (r: seq<byte>)
    requires begun.Some? ==> Packable(begun.value.frame) && begun.value.size <= |Pack(begun.value.frame)|
  {
    if begun.None? then [] else Pack(begun.value.frame)[..begun.value.size]
  }

  /** Whole frames out, then at most one begun; with no writer a begun frame means a broken channel. */
  ghost predicate OutputOk(s: State) {
    && AllPackable(s.written)
    && (s.begun.Some? ==> Packable(s.begun.value.frame) && s.begun.value.size <= |Pack(s.begun.value.frame)|)
    && s.out == PackAll(s.written) + Tail(s.begun)
    && (s.writing.None? && !s.broken ==> s.begun.None?)
    && (s.writing.Some? ==> s.writing.value < |s.threads|)
    && (forall k :: 0 <= k < |s.written| ==> 1 <= s.written[k].requestId < s.nextId)
    && (s.begun.Some? ==> 1 <= s.begun.value.frame.requestId < s.nextId)
    && (forall k, l :: 0 <= k < l < |s.written| ==> s.written[k].requestId != s.written[l].requestId)
    && (s.begun.Some? ==> forall k :: 0 <= k < |s.written| ==> s.written[k].requestId != s.begun.value.frame.requestId)
  }

  /** Whole responses in, then less than one; with no reader a part of one means a broken channel. */
  ghost predicate InputOk(s: State) {
    && AllPackable(s.responses) && s.consumed == PackAll(s.responses) + s.rest
    && |s.rest| <= Needed(s.rest)
    && (s.reading.None? && !s.broken ==> s.rest == [])
    && (s.reading.Some? ==> s.reading.value < |s.threads|)
  }

  ghost predicate Sound(s: State) {
    Shaped(s) && AllOk(s) && Distinct(s) && OutputOk(s) && InputOk(s)
  }

  lemma StartSound()
    ensures Sound(Start())
  {
    hide Pack, Needed, FirstAnswer, Holding, Concluded, Placed, Untouched;
    var s := Start();
    assert PackAll([]) + [] == [];
    assert OutputOk(s) && InputOk(s) && Distinct(s) && Shaped(s);
  }

  // ----- each step keeps it ---------------------------------------------------------------------

  lemma BeginThread(s: State, frame: Frame, u: nat)
    requires Sound(s) && Packable(frame) && s.nextId < IDS && u < |BeginCall(s, frame).threads|
    ensures ThreadOk(BeginCall(s, frame), u)
  {
    hide FirstAnswer, PackAll, Pack, Needed, FirstVacant;
    if u < |s.threads| {
      assert ThreadOk(s, u);
    }
  }

  lemma BeginSound(s: State, frame: Frame)
    requires Sound(s) && Packable(frame) && s.nextId < IDS
    ensures Sound(BeginCall(s, frame))
  {
    hide FirstAnswer, PackAll, Pack, Needed, ThreadOk, FirstVacant, Distinct;
    var r := BeginCall(s, frame);
    forall u | 0 <= u < |r.threads|
      ensures ThreadOk(r, u)
    {
      BeginThread(s, frame, u);
    }
    BeginDistinct(s, frame);
    assert OutputOk(r) && InputOk(r) && Shaped(r);
  }

  lemma BeginDistinct(s: State, frame: Frame)
    requires Sound(s) && Packable(frame) && s.nextId < IDS
    ensures Distinct(BeginCall(s, frame))
  {
    hide FirstAnswer, PackAll, Pack, Needed, OutputOk, InputOk, Holding, Concluded, Placed;
    var r := BeginCall(s, frame);
    var n := |s.threads|;
    forall t, u | 0 <= t < u < |r.threads| && r.threads[t].id != 0 && r.threads[u].id != 0
      ensures r.threads[t].id < r.threads[u].id
    {
      assert ThreadOk(s, t);
    }
  }

  lemma DecideThread(s: State, t: nat, inTime: bool, u: nat)
    requires Sound(s) && t < |s.threads| && (s.threads[t].pc == Packed || s.threads[t].pc.WaitWrite?) && u < |s.threads|
    ensures ThreadOk(Decide(s, t, inTime), u)
  {
    hide FirstAnswer, PackAll, Pack, Needed, InputOk;
    assert ThreadOk(s, t) && ThreadOk(s, u);
    assert u != t && s.threads[u].id != 0 && s.threads[t].id != 0 ==> s.threads[u].id != s.threads[t].id;
  }

  lemma DecideOutput(s: State, t: nat, inTime: bool)
    requires Sound(s) && t < |s.threads| && (s.threads[t].pc == Packed || s.threads[t].pc.WaitWrite?)
    ensures OutputOk(Decide(s, t, inTime))
  {
    hide FirstAnswer, PackAll, Pack, Needed, InputOk, Distinct, Concluded;
    assert ThreadOk(s, t);
    TailEmpty(s.threads[t].frame, s.out);
  }

  lemma DecideSound(s: State, t: nat, inTime: bool)
    requires Sound(s) && t < |s.threads| && (s.threads[t].pc == Packed || s.threads[t].pc.WaitWrite?)
    ensures Sound(Decide(s, t, inTime))
  {
    hide FirstAnswer, PackAll, Pack, Needed, ThreadOk, OutputOk;
    var r := Decide(s, t, inTime);
    forall u | 0 <= u < |r.threads|
      ensures ThreadOk(r, u)
    {
      DecideThread(s, t, inTime, u);
    }
    DecideOutput(s, t, inTime);
    assert InputOk(r) && Distinct(r) && Shaped(r);
  }

  lemma TailEmpty(f: Frame, out: seq<byte>)
    requires Packable(f)
    ensures Tail(Some(Begun(f, 0))) == [] == Tail(None)
  {
  }

  lemma QueueSound(s: State, t: nat, inTime: bool)
    requires Sound(s) && t < |s.threads| && (s.threads[t].pc == Packed || s.threads[t].pc.WaitWrite?)
    ensures Sound(Queue(s, t, inTime))
  {
    hide FirstAnswer, PackAll, Pack, Needed;
    if s.writing.Some? && !s.broken {
      var r := Queue(s, t, inTime);
      forall u | 0 <= u < |r.threads|
        ensures ThreadOk(r, u)
      {
        assert ThreadOk(s, u);
      }
    } else {
      DecideSound(s, t, inTime);
    }
  }

  lemma PackFailsSound(s: State, t: nat)
    requires Sound(s) && At(s, t, Packed)
    ensures Sound(s.(threads := s.threads[t := s.threads[t].(pc := Loop, sent := false)]))
  {
    hide FirstAnswer, PackAll, Pack, Needed;
    var r := s.(threads := s.threads[t := s.threads[t].(pc := Loop, sent := false)]);
    forall u | 0 <= u < |r.threads|
      ensures ThreadOk(r, u)
    {
      assert ThreadOk(s, u);
    }
  }

  lemma PutSound(s: State, step: Step)
    requires Sound(s) && step.Put? && Enabled(s, step)
    ensures Sound(Next(s, step))
  {
    hide FirstAnswer, PackAll, Pack, Needed;
    var r, b := Next(s, step), s.begun.value;
    forall u | 0 <= u < |r.threads|
      ensures ThreadOk(r, u)
    {
      assert ThreadOk(s, u);
    }
    var p := Pack(b.frame);
    assert p[..b.size] + p[b.size..b.size + step.count] == p[..b.size + step.count];
    Regroup(PackAll(s.written), p[..b.size], p[b.size..b.size + step.count]);
    assert OutputOk(r);
  }

  lemma EndWriteOutput(s: State, t: nat)
    requires Sound(s) && At(s, t, Writing) && s.begun.Some? && Packable(s.begun.value.frame)
    ensures OutputOk(EndWrite(s, t))
  {
    hide FirstAnswer, PackAll, Pack, Needed, Holding, Concluded, InputOk, Distinct;
    var r, f := EndWrite(s, t), s.begun.value.frame;
    if s.begun.value.size == |Pack(f)| {
      PackAllAppend(s.written, f);
      assert Pack(f)[..|Pack(f)|] == Pack(f);
      assert PackAll(r.written) + [] == PackAll(r.written);
    }
  }

  lemma EndWritePlaced(s: State, t: nat, u: nat)
    requires Sound(s) && At(s, t, Writing) && s.begun.Some? && Packable(s.begun.value.frame) && u < |s.threads|
    ensures Placed(EndWrite(s, t), u)
  {
    hide FirstAnswer, PackAll, Pack, Needed, Broadcast, InputOk, OutputOk, Distinct, Concluded;
    assert ThreadOk(s, t) && ThreadOk(s, u);
  }

  lemma EndWriteUntouched(s: State, t: nat, u: nat)
    requires Sound(s) && At(s, t, Writing) && s.begun.Some? && Packable(s.begun.value.frame) && u < |s.threads|
    ensures Untouched(EndWrite(s, t), EndWrite(s, t).threads[u])
  {
    hide FirstAnswer, PackAll, Pack, Needed, Broadcast, InputOk, OutputOk, Holding, Concluded;
    assert ThreadOk(s, t) && ThreadOk(s, u);
    assert u != t && s.threads[u].id != 0 && s.threads[t].id != 0 ==> s.threads[u].id != s.threads[t].id;
  }

  lemma EndWriteThread(s: State, t: nat, u: nat)
    requires Sound(s) && At(s, t, Writing) && s.begun.Some? && Packable(s.begun.value.frame) && u < |s.threads|
    ensures ThreadOk(EndWrite(s, t), u)
  {
    hide FirstAnswer, PackAll, Pack, Needed, Broadcast, InputOk, OutputOk, Distinct, Placed, Untouched;
    assert ThreadOk(s, u);
    EndWritePlaced(s, t, u);
    EndWriteUntouched(s, t, u);
  }

  lemma EndWriteSound(s: State, t: nat)
    requires Sound(s) && At(s, t, Writing) && s.begun.Some? && Packable(s.begun.value.frame)
    ensures Sound(EndWrite(s, t))
  {
    hide FirstAnswer, PackAll, Pack, Needed, Broadcast, ThreadOk;
    var r := EndWrite(s, t);
    forall u | 0 <= u < |r.threads|
      ensures ThreadOk(r, u)
    {
      EndWriteThread(s, t, u);
    }
    assert ThreadOk(s, t);
    EndWriteOutput(s, t);
    assert InputOk(r) && Distinct(r) && Shaped(r);
  }

  lemma FinishThread(s: State, t: nat, u: nat)
    requires Sound(s) && t < |s.threads| && (s.threads[t].pc == Loop || s.threads[t].pc.WaitRead?)
    requires u < |s.threads|
    ensures ThreadOk(Finish(s, t), u)
  {
    hide FirstAnswer, PackAll, Pack, Needed, Broadcast, InputOk, OutputOk;
    assert ThreadOk(s, t) && ThreadOk(s, u);
    assert u != t && s.threads[u].id != 0 && s.threads[t].id != 0 ==> s.threads[u].id != s.threads[t].id;
  }

  lemma FinishSound(s: State, t: nat)
    requires Sound(s) && t < |s.threads| && (s.threads[t].pc == Loop || s.threads[t].pc.WaitRead?)
    ensures Sound(Finish(s, t))
  {
    hide FirstAnswer, PackAll, Pack, Needed, Broadcast, ThreadOk;
    var r := Finish(s, t);
    forall u | 0 <= u < |r.threads|
      ensures ThreadOk(r, u)
    {
      FinishThread(s, t, u);
    }
    assert ThreadOk(s, t);
    assert OutputOk(r) && InputOk(r) && Distinct(r) && Shaped(r);
  }

  lemma TopThread(s: State, t: nat, u: nat)
    requires Sound(s) && t < |s.threads| && (s.threads[t].pc == Loop || s.threads[t].pc.WaitRead?) && u < |s.threads|
    requires !s.broken
    ensures s.reading.None? ==> ThreadOk(Go(s.(reading := Some(t)), t, Reading), u)
    ensures s.reading.Some? ==> ThreadOk(Go(s, t, WaitRead(false)), u)
  {
    hide FirstAnswer, PackAll, Pack, Needed, Distinct;
    assert ThreadOk(s, t) && ThreadOk(s, u);
  }

  lemma TopSound(s: State, t: nat, expired: bool)
    requires Sound(s) && t < |s.threads| && (s.threads[t].pc == Loop || s.threads[t].pc.WaitRead?)
    ensures Sound(Top(s, t, expired))
  {
    hide FirstAnswer, PackAll, Pack, Needed, Finish, ThreadOk;
    var th, r := s.threads[t], Top(s, t, expired);
    var slot := s.pending[th.slot];
    if !th.sent || (slot.Taken? && slot.done.Some?) || s.broken || expired {
      FinishSound(s, t);
    } else {
      forall u | 0 <= u < |r.threads|
        ensures ThreadOk(r, u)
      {
        TopThread(s, t, u);
      }
      assert OutputOk(r) && InputOk(r) && Distinct(r) && Shaped(r);
    }
  }

  lemma ReceiveSound(s: State, step: Step)
    requires Sound(s) && step.Receive? && Enabled(s, step)
    ensures Sound(Next(s, step))
  {
    hide FirstAnswer, PackAll, Pack, Needed;
    var r := Next(s, step);
    assert ThreadOk(s, step.t);
    forall u | 0 <= u < |r.threads|
      ensures ThreadOk(r, u)
    {
      assert ThreadOk(s, u);
    }
    Regroup(PackAll(s.responses), s.rest, step.bytes);
    NeededStays(s.rest, step.bytes);
    assert OutputOk(r);
    assert InputOk(r);
  }

  lemma NeededStays(a: seq<byte>, b: seq<byte>)
    requires |a| + |b| <= Needed(a)
    ensures |a + b| <= Needed(a + b)
  {
    hide FromLe32;
    if |a| >= HEADER_SIZE {
      assert (a + b)[12..16] == a[12..16];
    }
  }

  lemma HandInput(s: State, t: nat)
    requires Sound(s) && At(s, t, Reading) && Ready(s)
    ensures InputOk(Hand(s, t))
  {
    hide FirstAnswer, PackAll, Pack, Holding, Concluded, OutputOk, Distinct, Match, Spelled, LengthField;
    var r := Hand(s, t);
    HeadSpelled(s.rest);
    assert s.rest[..Needed(s.rest)] == s.rest;
    PackAllAppend(s.responses, Spelled(s.rest));
    assert PackAll(r.responses) + [] == PackAll(r.responses);
  }

  /** A response goes to the call that bears its id, if that call has had none, and to no other. */
  lemma HandHolding(s: State, t: nat, u: nat)
    requires Sound(s) && At(s, t, Reading) && Ready(s) && u < |s.threads| && !s.threads[u].pc.Over?
    ensures Holding(Hand(s, t), s.threads[u])
  {
    hide PackAll, Pack, Needed, OutputOk, InputOk, Spelled;
    var r, f, th := Hand(s, t), Spelled(s.rest), s.threads[u];
    assert ThreadOk(s, u);
    assert forall j :: 0 <= j < |s.responses| ==> r.responses[j] == s.responses[j];
    assert r.responses[|s.responses|] == f;
    var k := Match(s.pending, f.requestId, 0);
    if th.id == f.requestId {
      assert s.pending[th.slot].done.None? ==> k == th.slot;
    } else {
      assert k < |s.pending| ==> k != th.slot;
    }
  }

  lemma AnswerStays(responses: seq<Frame>, f: Frame, id: nat, base: nat, a: Reply)
    requires FirstAnswer(responses, id, base, a)
    ensures FirstAnswer(responses + [f], id, base, a)
  {
  }

  lemma HandSound(s: State, t: nat)
    requires Sound(s) && At(s, t, Reading) && Ready(s)
    ensures Sound(Hand(s, t))
  {
    hide FirstAnswer, PackAll, Pack, Needed, Spelled, Holding;
    var r := Hand(s, t);
    forall u | 0 <= u < |r.threads|
      ensures ThreadOk(r, u)
    {
      assert ThreadOk(s, u);
      if s.threads[u].pc.Over? {
        if s.threads[u].pc.result.Answered? {
          AnswerStays(s.responses, Spelled(s.rest), s.threads[u].id, s.threads[u].base, s.threads[u].pc.result.reply);
        }
      } else {
        HandHolding(s, t, u);
        HoldingPc(r, s.threads[u], r.threads[u].pc);
      }
    }
    HandInput(s, t);
    assert OutputOk(r);
    assert Distinct(r);
  }

  lemma HoldingPc(s: State, th: Thread, pc: Pc)
    requires Holding(s, th)
    ensures Holding(s, th.(pc := pc))
  {
  }

  lemma EndReadThread(s: State, t: nat, ok: bool, u: nat)
    requires Sound(s) && ((At(s, t, Reading) && (ok ==> s.rest == [])) || (At(s, t, Delivered) && ok))
    requires u < |s.threads|
    ensures ThreadOk(EndRead(s, t, ok), u)
  {
    hide FirstAnswer, PackAll, Pack, Needed, Broadcast, InputOk, OutputOk, Distinct;
    assert ThreadOk(s, t) && ThreadOk(s, u);
  }

  lemma EndReadInput(s: State, t: nat, ok: bool)
    requires Sound(s) && ((At(s, t, Reading) && (ok ==> s.rest == [])) || (At(s, t, Delivered) && ok))
    ensures InputOk(EndRead(s, t, ok))
  {
    hide FirstAnswer, PackAll, Pack, Needed, Broadcast, OutputOk, Distinct, Holding, Concluded, Untouched;
    assert ThreadOk(s, t);
  }

  lemma EndReadSound(s: State, t: nat, ok: bool)
    requires Sound(s) && ((At(s, t, Reading) && (ok ==> s.rest == [])) || (At(s, t, Delivered) && ok))
    ensures Sound(EndRead(s, t, ok))
  {
    hide FirstAnswer, PackAll, Pack, Needed, Broadcast, ThreadOk;
    var r := EndRead(s, t, ok);
    forall u | 0 <= u < |r.threads|
      ensures ThreadOk(r, u)
    {
      EndReadThread(s, t, ok, u);
    }
    assert ThreadOk(s, t);
    EndReadInput(s, t, ok);
    assert OutputOk(r) && Distinct(r) && Shaped(r);
  }

  lemma RetireSound(s: State)
    requires Sound(s)
    ensures Sound(s.(broken := true, threads := Broadcast(s.threads)))
  {
    hide FirstAnswer, PackAll, Pack, Needed, Broadcast;
    var r := s.(broken := true, threads := Broadcast(s.threads));
    forall u | 0 <= u < |r.threads|
      ensures ThreadOk(r, u)
    {
      assert ThreadOk(s, u);
    }
    assert OutputOk(r);
    assert InputOk(r);
    assert Distinct(r);
  }

  lemma NextSound(s: State, step: Step)
    requires Sound(s) && Enabled(s, step)
    ensures Sound(Next(s, step))
  {
    hide Sound, BeginCall, Queue, Decide, EndWrite, Top, Finish, Hand, EndRead, Broadcast, Ready;
    SoundShaped(s);
    match step {
      case Begin(frame) => BeginSound(s, frame);
      case PackFails(t) => PackFailsSound(s, t);
      case TryWrite(t, inTime) => QueueSound(s, t, inTime);
      case WakeWrite(t, timedOut, inTime) =>
        if timedOut {
          DecideSound(s, t, inTime);
        } else {
          QueueSound(s, t, inTime);
        }
      case Put(_, _) => PutSound(s, step);
      case WriteEnd(t) => EndWriteSound(s, t);
      case EnterLoop(t, expired) => TopSound(s, t, expired);
      case WakeRead(t, timedOut, expired) =>
        if timedOut {
          FinishSound(s, t);
        } else {
          TopSound(s, t, expired);
        }
      case Receive(_, _) => ReceiveSound(s, step);
      case Deliver(t) => HandSound(s, t);
      case ReadEnd(t, ok, expired) =>
        EndReadSound(s, t, ok);
        SoundShaped(EndRead(s, t, ok));
        EndReadLoop(s, t, ok);
        TopSound(EndRead(s, t, ok), t, expired);
      case Retire => RetireSound(s);
    }
  }

  lemma SoundShaped(s: State)
    requires Sound(s)
    ensures Shaped(s)
  {
  }

  lemma EndReadLoop(s: State, t: nat, ok: bool)
    requires t < |s.threads|
    ensures EndRead(s, t, ok).threads[t] == s.threads[t].(pc := Loop)
  {
  }

  // ----- whole runs ------------------------------------------------------------------------------

  ghost predicate Runs(s: State, steps: seq<Step>, last: State)
    decreases |steps|
  {
    if steps == [] then last == s
    else Enabled(s, steps[0]) && Shaped(s) && Runs(Next(s, steps[0]), steps[1..], last)
  }

  /** Whatever the interleaving, what is promised holds at the end of the run. */
  lemma {:induction false} RunSound(s: State, steps: seq<Step>, last: State)
    requires Sound(s) && Runs(s, steps, last)
    ensures Sound(last)
    decreases |steps|
  {
    hide Sound, Enabled, Next;
    if steps != [] {
      NextSound(s, steps[0]);
      RunSound(Next(s, steps[0]), steps[1..], last);
    }
  }

  ghost predicate Reachable(s: State) {
    exists steps :: Runs(Start(), steps, s)
  }

  lemma ReachableSound(s: State)
    requires Reachable(s)
    ensures Sound(s)
  {
    hide Sound, Runs;
    var steps :| Runs(Start(), steps, s);
    StartSound();
    RunSound(Start(), steps, s);
  }

  // ----- what that means for a caller ----------------------------------------------------------------

  /**
   * A call that is answered returns the first response of its own id read since
   * it began, and that id belongs to no other call, past or present.
   */
  lemma Demultiplexed(s: State, t: nat)
    requires Reachable(s) && t < |s.threads| && s.threads[t].pc.Over? && s.threads[t].pc.result.Answered?
    ensures var th, a := s.threads[t], s.threads[t].pc.result.reply;
      && FirstAnswer(s.responses, th.id, th.base, a)
      && forall u :: 0 <= u < |s.threads| && u != t ==> s.threads[u].id != a.frame.requestId
  {
    hide Reachable, PackAll, Pack, Needed;
    ReachableSound(s);
    assert ThreadOk(s, t);
  }

  /** The ids in use are distinct and below the next one to be issued. */
  lemma IdsDistinct(s: State, i: nat, j: nat)
    requires Reachable(s) && i < j < |s.pending| && s.pending[i].Taken? && s.pending[j].Taken?
    ensures s.pending[i].id != s.pending[j].id && s.pending[i].id < s.nextId && s.pending[j].id < s.nextId
  {
    hide Reachable, PackAll, Pack, Needed, AllOk, OutputOk, InputOk;
    ReachableSound(s);
  }

  /** One writer and one reader. */
  lemma OneOfEach(s: State, t: nat, u: nat)
    requires Reachable(s) && t < u < |s.threads|
    ensures !(s.threads[t].pc == Writing && s.threads[u].pc == Writing)
    ensures !((s.threads[t].pc == Reading || s.threads[t].pc == Delivered)
              && (s.threads[u].pc == Reading || s.threads[u].pc == Delivered))
  {
    hide Reachable, PackAll, Pack, Needed, OutputOk, InputOk, Holding, Concluded, Untouched, Distinct;
    ReachableSound(s);
    assert ThreadOk(s, t) && ThreadOk(s, u);
  }

  lemma PartOfFrame(f: Frame, n: nat)
    requires Packable(f) && n < |Pack(f)|
    ensures Partial(Pack(f)[..n])
  {
    hide Pack;
    var b := Pack(f)[..n];
    if n >= HEADER_SIZE {
      PackSpelled(f);
      assert b[12..16] == Pack(f)[12..16];
    }
  }

  /** What was sent, cut at its frame boundaries. */
  lemma OutputCut(s: State)
    requires Sound(s)
    ensures CutStream(s.out) ==
      if s.begun.Some? && Packable(s.begun.value.frame) && s.begun.value.size == |Pack(s.begun.value.frame)|
      then Cut(s.written + [s.begun.value.frame], [])
      else Cut(s.written, CutStream(s.out).rest)
    ensures s.begun.None? ==> CutStream(s.out).rest == []
  {
    hide PackAll, Pack, Needed, AllOk, InputOk, Distinct, CutStream;
    if s.begun.None? {
      NothingPartial();
      CutOfPacked(s.written, []);
    } else {
      var b := s.begun.value;
      if b.size == |Pack(b.frame)| {
        PackAllAppend(s.written, b.frame);
        NothingPartial();
        assert Pack(b.frame)[..b.size] == Pack(b.frame);
        assert PackAll(s.written + [b.frame]) + [] == PackAll(s.written + [b.frame]);
        CutOfPacked(s.written + [b.frame], []);
      } else {
        PartOfFrame(b.frame, b.size);
        CutOfPacked(s.written, Pack(b.frame)[..b.size]);
      }
    }
  }

  /**
   * What was sent is the frames written, then at most one more, whole or cut
   * short; with no writer and the channel whole there is nothing after the frames.
   */
  lemma OutputFramed(s: State)
    requires Reachable(s)
    ensures var c := CutStream(s.out);
      && s.written <= c.frames && |c.frames| <= |s.written| + 1
      && (|c.frames| == |s.written| + 1 ==> c.rest == [] && s.begun.Some? && c.frames[|s.written|] == s.begun.value.frame)
      && (s.writing.None? && !s.broken ==> c == Cut(s.written, []))
  {
    hide Reachable, PackAll, Pack, Needed, AllOk, InputOk, Distinct, CutStream;
    ReachableSound(s);
    OutputCut(s);
  }

  lemma NothingPartial()
    ensures Partial([])
  {
  }

  /** With nobody reading and the channel whole, the input stands at a frame boundary. */
  lemma InputAtBoundary(s: State)
    requires Reachable(s) && s.reading.None? && !s.broken
    ensures CutStream(s.consumed) == Cut(s.responses, [])
  {
    hide Reachable, PackAll, Pack, AllOk, OutputOk, Distinct, CutStream, Partial;
    ReachableSound(s);
    NothingPartial();
    CutOfPacked(s.responses, []);
  }

  /** Once broken, always broken, and no write begins. */
  lemma BrokenStays(s: State, step: Step)
    requires Enabled(s, step) && Shaped(s) && s.broken
    ensures Next(s, step).broken && (Next(s, step).writing == s.writing || Next(s, step).writing.None?)
    ensures Next(s, step).begun.Some? ==> s.begun.Some? && Next(s, step).begun.value.frame == s.begun.value.frame
  {
    hide Broadcast, Pack, FirstVacant, Match, Spelled, Needed;
  }

  /** A thread blocked without a wakeup waits on a thread that is at work and will wake it. */
  lemma NotStranded(s: State, t: nat)
    requires Reachable(s) && t < |s.threads|
    ensures s.threads[t].pc == WaitWrite(false) ==>
      !s.broken && exists u :: 0 <= u < |s.threads| && s.threads[u].pc == Writing
    ensures s.threads[t].pc == WaitRead(false) ==>
      !s.broken && exists u :: 0 <= u < |s.threads| && (s.threads[u].pc == Reading || s.threads[u].pc == Delivered)
  {
    hide Reachable, PackAll, Pack, Needed, Holding, Concluded, Untouched, Distinct;
    ReachableSound(s);
    assert ThreadOk(s, t);
    if s.threads[t].pc == WaitWrite(false) {
      assert ThreadOk(s, s.writing.value);
    }
    if s.threads[t].pc == WaitRead(false) {
      assert ThreadOk(s, s.reading.value);
    }
  }

  predicate Asleep(th: Thread) {
    th.pc == WaitWrite(false) || th.pc == WaitRead(false)
  }

  lemma BroadcastWakes(threads: seq<Thread>)
    ensures forall u :: 0 <= u < |threads| ==> !Asleep(Broadcast(threads)[u])
  {
  }

  /** A thread that has just given up the reader role does not go to sleep. */
  lemma TopAwake(s: State, t: nat, expired: bool)
    requires t < |s.threads| && s.threads[t].slot < |s.pending| && s.reading.None?
    requires forall u :: 0 <= u < |s.threads| ==> !Asleep(s.threads[u])
    ensures forall u :: 0 <= u < |s.threads| ==> !Asleep(Top(s, t, expired).threads[u])
  {
    hide Outcome;
  }

  /** Every step that ends a write, ends a read or breaks the channel leaves no waiter asleep. */
  lemma WakesAll(s: State, step: Step)
    requires Enabled(s, step) && Shaped(s)
    requires step.WriteEnd? || step.ReadEnd? || step.Retire?
    ensures forall u :: 0 <= u < |Next(s, step).threads| ==> !Asleep(Next(s, step).threads[u])
  {
    hide Pack, Match, Spelled, Needed, Top, Broadcast, Asleep;
    match step {
      case WriteEnd(t) =>
        BroadcastWakes(s.threads[t := s.threads[t].(pc := Loop, sent := s.begun.value.size == |Pack(s.begun.value.frame)|)]);
      case ReadEnd(t, ok, expired) =>
        BroadcastWakes(s.threads[t := s.threads[t].(pc := Loop)]);
        EndReadLoop(s, t, ok);
        TopAwake(EndRead(s, t, ok), t, expired);
      case Retire => BroadcastWakes(s.threads);
    }
  }

  /** Only those steps do so. */
  lemma OnlyThese(s: State, step: Step)
    requires Enabled(s, step) && Shaped(s) && !(step.WriteEnd? || step.ReadEnd? || step.Retire?)
    ensures (s.writing.Some? ==> Next(s, step).writing == s.writing) && (s.reading.Some? ==> Next(s, step).reading == s.reading)
    ensures Next(s, step).broken == s.broken
  {
    hide Broadcast, Pack, FirstVacant, Match, Spelled, Needed, Outcome;
  }

  /** BUSY is honest: no byte of the request was ever sent. */
  lemma BusyUnsent(s: State, t: nat)
    requires Reachable(s) && t < |s.threads| && s.threads[t].pc == Over(Busy)
    ensures !s.threads[t].attempted
    ensures s.threads[t].id != 0 ==>
      (forall k :: 0 <= k < |s.written| ==> s.written[k].requestId != s.threads[t].id)
      && (s.begun.Some? ==> s.begun.value.frame.requestId != s.threads[t].id)
  {
    hide Reachable, PackAll, Pack, Needed, OutputOk, InputOk, Distinct, Placed;
    ReachableSound(s);
    assert ThreadOk(s, t);
  }

  /** A request whose write was attempted is answered, or its outcome is unknown. */
  lemma AttemptedTimesOut(s: State, t: nat)
    requires Reachable(s) && t < |s.threads| && s.threads[t].pc.Over? && s.threads[t].attempted
    ensures s.threads[t].pc.result.Answered? || s.threads[t].pc.result == TimedOut
  {
    hide Reachable, PackAll, Pack, Needed, OutputOk, InputOk, Distinct, Placed, Untouched;
    ReachableSound(s);
    assert ThreadOk(s, t);
  }
}

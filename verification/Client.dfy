/** The client's end of a lease connection: frames out of a byte stream, and the queue of state events. */
module Client {
  import opened Bytes
  import opened Frames
  import opened ScopeCache
  import StateWire
  import Response

  const MAX_RESPONSE := Response.MAX_RESPONSE
  const MAX_EVENTS: nat := 256
  const MAX_EVENT_BYTES: nat := 16 * 1024 * 1024
  const RECEIVE_SIZE: nat := 8192

  // ----- the socket -------------------------------------------------------------

  /** What the kernel does with one receive or wait. Deliver gives at most this many bytes, and at least one. */
  datatype Outcome = Deliver(limit: nat) | Interrupted | Blocked | Ended | Expired

  datatype Received = Got(bytes: seq<byte>) | Again | Nothing | Gone

  /** A stream that arrives in pieces: the script is any finite schedule of receives. */
  class Socket {
    var script: seq<Outcome>
    var pending: seq<byte>
    ghost var received: seq<byte>
    ghost const stream: seq<byte>

    ghost predicate Valid()
      reads this
    {
      received + pending == stream
    }

    /** Everything still to come arrives without a hitch. */
    ghost predicate Eager()
      reads this
    {
      |script| >= |pending| && forall i :: 0 <= i < |script| ==> script[i].Deliver?
    }

    constructor (stream: seq<byte>, script: seq<Outcome>)
      ensures Valid() && received == [] && pending == stream && this.stream == stream && this.script == script
    {
      this.stream := stream;
      this.script, pending, received := script, stream, [];
    }

    method Receive(amount: nat) returns (r: Received)
      requires Valid() && amount > 0
      modifies this
      ensures Valid() && |script| <= |old(script)|
      ensures r.Got? ==> 1 <= |r.bytes| <= amount && received == old(received) + r.bytes && |script| < |old(script)|
      ensures !r.Got? ==> received == old(received) && pending == old(pending)
      ensures r.Got? ==> old(pending) == r.bytes + pending
      ensures old(Eager()) ==> Eager() && (old(pending) != [] ==> r.Got?)
      ensures r.Again? ==> |script| < |old(script)|
      ensures r.Nothing? ==> script == [] || |script| < |old(script)|
    {
      if script == [] {
        return Nothing;
      }
      var next := script[0];
      script := script[1..];
      match next {
        case Deliver(limit) =>
          if pending == [] {
            return Nothing;
          }
          var size := if limit < 1 then 1 else limit;
          size := if size < amount then size else amount;
          size := if size < |pending| then size else |pending|;
          r := Got(pending[..size]);
          received, pending := received + pending[..size], pending[size..];
        case Interrupted => r := Again;
        case Ended => r := Gone;
        case _ => r := Nothing;
      }
    }

    /** A wait for more input; false is a deadline that passed. */
    method Wait() returns (ok: bool)
      ensures ok ==> script != []
    {
      ok := script != [] && !script[0].Expired?;
    }
  }

  // ----- frames out of the stream ---------------------------------------------------

  function PayloadBytes(fs: seq<Frame>): (n: nat) {
    if fs == [] then 0 else |fs[0].payload| + PayloadBytes(fs[1..])
  }

  lemma {:induction false} PayloadBytesAppend(fs: seq<Frame>, f: Frame)
    ensures PayloadBytes(fs + [f]) == PayloadBytes(fs) + |f.payload|
    decreases |fs|
  {
    if fs == [] {
      assert fs + [f] == [f];
    } else {
      assert (fs + [f])[1..] == fs[1..] + [f];
      PayloadBytesAppend(fs[1..], f);
    }
  }

  /** Reading no more than the frame at the head is known to need never reads beyond it. */
  lemma NeededGrows(a: seq<byte>, b: seq<byte>)
    requires |a| + |b| <= Needed(a)
    ensures |a + b| <= Needed(a + b)
  {
    hide FromLe32;
    if |a| >= HEADER_SIZE {
      assert (a + b)[12..16] == a[12..16];
    }
  }

  lemma WholeFrame(b: seq<byte>)
    requires |b| == Needed(b) && Unpack(b, MAX_RESPONSE).Some?
    ensures var f := Unpack(b, MAX_RESPONSE).value;
      Packable(f) && Acceptable(f, MAX_RESPONSE) && Pack(f) == b
  {
    PackUnpack(b, MAX_RESPONSE);
  }

  /** What part of a frame to come says of it. */
  lemma Coming(input: seq<byte>, pending: seq<byte>)
    requires CutStream(input + pending).frames != [] && |input| <= Needed(input)
    requires Acceptable(CutStream(input + pending).frames[0], MAX_RESPONSE)
    ensures |input| >= HEADER_SIZE ==> LengthField(input) <= MAX_RESPONSE
    ensures |input| < Needed(input) ==> pending != []
    ensures |input| == Needed(input) ==>
      && Unpack(input, MAX_RESPONSE) == Some(CutStream(input + pending).frames[0])
      && CutStream(pending).frames == CutStream(input + pending).frames[1..]
  {
    hide FromLe32, FromLe16, FromLe64;
    var whole := input + pending;
    var n := Needed(whole);
    if |input| >= HEADER_SIZE {
      assert whole[12..16] == input[12..16];
      assert whole[..n][12..16] == whole[12..16];
    }
    if |input| == Needed(input) {
      assert whole[..n] == input && whole[n..] == pending;
    }
  }

  datatype Arrival = Arrived(frame: Frame) | NotYet | Malformed | Disconnected

  datatype Answer = Replied(settled: Settled) | Lost

  datatype Next = Delivered(event: StateWire.Event) | Revoked(scopes: u32) | TimedOut | Broken

  /** ksd_state_mutates_windows. */
  predicate MutatesWindows(opcode: u16) {
    || (0x2020 <= opcode <= 0x202D && opcode != 0x202B && opcode != 0x202C)
    || opcode == 0x2070 || opcode == 0x2071 || opcode == 0x2075
  }

  /** What a reply says to the caller, and the operation number a success of a mutating operation ends with. */
  datatype Settled = Settled(reply: Response.Reply, number: Option<u64>)

  function Settle(opcode: u16, reply: Response.Reply): (r: Option<Settled>) {
    if !reply.Done? || !MutatesWindows(opcode) then Some(Settled(reply, None))
    else if |reply.tail| < 8 then None
    else
      var cut := |reply.tail| - 8;
      Some(Settled(reply.(tail := reply.tail[..cut]), Some(FromLe64(reply.tail[cut..]))))
  }

  /** An operation's number behind its tail comes back as both. */
  lemma SettleAppended(opcode: u16, detail: u32, tail: seq<byte>, number: u64)
    ensures Settle(opcode, Response.Done(detail, tail + Le64(number))) ==
      if MutatesWindows(opcode) then Some(Settled(Response.Done(detail, tail), Some(number)))
      else Some(Settled(Response.Done(detail, tail + Le64(number)), None))
  {
    hide Le64, FromLe64;
    Le64RoundTrip(number);
    var t := tail + Le64(number);
    assert t[..|t| - 8] == tail && t[|t| - 8..] == Le64(number);
  }

  /** An event that fits the queue, or a revocation. */
  predicate Absorbs(queue: seq<Frame>, f: Frame) {
    if IsState(f)
    then |queue| < MAX_EVENTS && PayloadBytes(queue) + |f.payload| <= MAX_EVENT_BYTES && StateWire.Decode(f.payload).Some?
    else Revocation(f).Some?
  }

  lemma StateTakesNothing(granted: Scopes, f: Frame)
    requires IsState(f)
    ensures TakenBy(f) == {} && granted - TakenBy(f) == granted
  {
  }

  /** The frames up to and with the first that is no event. */
  function UpToReply(fs: seq<Frame>): (r: seq<Frame>) {
    if fs == [] then [] else if !IsEvent(fs[0].flags) then [fs[0]] else [fs[0]] + UpToReply(fs[1..])
  }

  /** Acceptable events that fit the queue, then a reply that is understood. */
  predicate Answers(queue: seq<Frame>, fs: seq<Frame>, opcode: u16, id: u64)
    decreases |fs|
  {
    && fs != [] && Acceptable(fs[0], MAX_RESPONSE)
    && if IsEvent(fs[0].flags)
       then Absorbs(queue, fs[0]) && Answers(if IsState(fs[0]) then queue + [fs[0]] else queue, fs[1..], opcode, id)
       else
         var reply := Response.Parse(fs[0], opcode, id);
         reply.Some? && Settle(opcode, reply.value).Some?
  }

  class Connection {
    const socket: Socket
    var open: bool
    var grantedScopes: Scopes
    var sequence: u64
    /** The scopes the connection began with. */
    ghost const initial: Scopes
    var input: seq<byte>
    var queue: seq<Frame>
    var queuedCount: nat
    var queuedBytes: nat
    /** Every frame taken out of the stream, and every state event handed to the caller. */
    ghost var extracted: seq<Frame>
    ghost var delivered: seq<Frame>

    ghost predicate QueueValid()
      reads this`queue, this`queuedCount, this`queuedBytes
    {
      && queuedCount == |queue| <= MAX_EVENTS
      && queuedBytes == PayloadBytes(queue) <= MAX_EVENT_BYTES
      && forall f :: f in queue ==> IsState(f) && StateWire.Decode(f.payload).Some?
    }

    /** The input begins at a frame boundary and holds less than one frame. */
    ghost predicate Aligned()
      reads this`extracted, this`input, socket
    {
      && AllPackable(extracted)
      && socket.received == PackAll(extracted) + input
      && Partial(input)
    }

    /** What was read of the stream begins with the frames taken out of it, each acceptable. */
    ghost predicate StreamValid()
      reads this`extracted, socket
    {
      && socket.Valid()
      && AllPackable(extracted)
      && PackAll(extracted) <= socket.received
      && forall f :: f in extracted ==> Acceptable(f, MAX_RESPONSE)
    }

    ghost predicate Valid()
      reads this, socket
    {
      && QueueValid() && StreamValid()
      && delivered + queue <= States(extracted)
      && (open ==> Aligned() && InOrder(extracted, delivered, queue) && Settles(initial, extracted, queue, grantedScopes))
    }

    /** The cached scopes are what the wire says. */
    ghost predicate Current()
      reads this
    {
      grantedScopes == WireScopes(initial, extracted)
    }

    /** The whole frames still to come, as far as the stream tells. */
    ghost function Upcoming(): (fs: seq<Frame>)
      reads this`input, socket
    {
      CutStream(input + socket.pending).frames
    }

    /** The connection behind its HELLO, with the scopes that granted. */
    constructor (socket: Socket, granted: Scopes)
      requires socket.Valid() && socket.received == []
      ensures Valid() && Current() && open && this.socket == socket && initial == grantedScopes == granted
      ensures extracted == [] && delivered == [] && queue == [] && input == []
    {
      this.socket := socket;
      open, input, queue, queuedCount, queuedBytes := true, [], [], 0, 0;
      grantedScopes, initial, sequence := granted, granted, 0;
      extracted, delivered := [], [];
      new;
      TakeNone(granted);
    }

    /** system_failure: the descriptor goes, what was queued stays. */
    method Fail()
      requires QueueValid() && StreamValid() && delivered + queue <= States(extracted)
      modifies this`open
      ensures Valid() && !open
    {
      open := false;
    }

    /** receive_event_frame. */
    method ReceiveEventFrame() returns (r: Arrival)
      requires StreamValid() && Aligned()
      modifies this`input, this`extracted, socket
      ensures StreamValid() && |socket.script| <= |old(socket.script)|
      ensures r.Arrived? ==> extracted == old(extracted) + [r.frame] && Aligned() && input == []
      ensures r.Arrived? ==> |socket.script| < |old(socket.script)|
      ensures r.NotYet? ==> Aligned() && (socket.script == [] || |socket.script| < |old(socket.script)|)
      ensures !r.Arrived? ==> extracted == old(extracted)
      ensures old(socket.Eager()) && old(Upcoming()) != [] && Acceptable(old(Upcoming())[0], MAX_RESPONSE) ==>
        r == Arrived(old(Upcoming())[0]) && socket.Eager() && Upcoming() == old(Upcoming())[1..]
      ensures r.Malformed? ==>
        var bad := socket.received[|PackAll(extracted)|..];
        |bad| >= HEADER_SIZE && (LengthField(bad) > MAX_RESPONSE || (|bad| == Needed(bad) && Unpack(bad, MAX_RESPONSE).None?))
    {
      hide Pack, Spelled, PackAll, LengthField, Acceptable, CutStream, Unpack;
      ghost var coming := old(Upcoming());
      ghost var sure := old(socket.Eager()) && coming != [] && Acceptable(coming[0], MAX_RESPONSE);
      while true
        invariant input + socket.pending == old(input) + old(socket.pending)
        invariant sure ==> socket.Eager()
        invariant socket.Valid() && AllPackable(extracted) && extracted == old(extracted)
        invariant forall f :: f in extracted ==> Acceptable(f, MAX_RESPONSE)
        invariant socket.received == PackAll(extracted) + input
        invariant |input| <= Needed(input)
        invariant |socket.script| <= |old(socket.script)|
        invariant |input| == Needed(input) ==> |socket.script| < |old(socket.script)|
        decreases |socket.script|
      {
        if sure {
          Coming(input, socket.pending);
        }
        var needed := HEADER_SIZE;
        if |input| >= HEADER_SIZE {
          var length := LengthField(input);
          assert socket.received[|PackAll(extracted)|..] == input;
          if length > MAX_RESPONSE {
            return Malformed;
          }
          needed := needed + length;
          if |input| == needed {
            var f := Unpack(input, MAX_RESPONSE);
            if f.None? {
              input := [];
              return Malformed;
            }
            WholeFrame(input);
            PackAllAppend(extracted, f.value);
            input, extracted := [], extracted + [f.value];
            assert socket.received == PackAll(extracted) + input;
            assert input + socket.pending == socket.pending;
            return Arrived(f.value);
          }
        }
        assert needed == Needed(input);
        var amount := needed - |input|;
        if amount > RECEIVE_SIZE {
          amount := RECEIVE_SIZE;
        }
        var got := socket.Receive(amount);
        match got {
          case Got(bytes) =>
            NeededGrows(input, bytes);
            Regroup(PackAll(extracted), input, bytes);
            Regroup(input, bytes, socket.pending);
            input := input + bytes;
          case Again =>
          case Nothing => return NotYet;
          case Gone => return Disconnected;
        }
      }
    }

    /** queue_event. */
    method QueueEvent(f: Frame) returns (ok: bool)
      requires QueueValid() && IsState(f)
      modifies this`queue, this`queuedCount, this`queuedBytes, this`grantedScopes
      ensures QueueValid()
      ensures grantedScopes == if ok then ScopesAfter(old(grantedScopes), f) else old(grantedScopes)
      ensures ok <==> Absorbs(old(queue), f)
      ensures ok <==> |old(queue)| < MAX_EVENTS && PayloadBytes(old(queue)) + |f.payload| <= MAX_EVENT_BYTES
                      && StateWire.Decode(f.payload).Some?
      ensures queue == if ok then old(queue) + [f] else old(queue)
    {
      hide StateWire.Decode;
      if queuedCount >= MAX_EVENTS || |f.payload| > MAX_EVENT_BYTES - queuedBytes {
        return false;
      }
      var e := StateWire.ReadEvent(f.payload);
      if e.None? {
        return false;
      }
      if e.value.domain == GRANTS_DOMAIN {
        grantedScopes := ScopesOf(e.value.grantedScopes);
      }
      StateTakesNothing(grantedScopes, f);
      PayloadBytesAppend(queue, f);
      queuedCount, queuedBytes, queue := queuedCount + 1, queuedBytes + |f.payload|, queue + [f];
      ok := true;
    }

    /** take_event. */
    method TakeEvent() returns (r: Option<Frame>)
      requires QueueValid()
      modifies this`queue, this`queuedCount, this`queuedBytes
      ensures QueueValid()
      ensures r == if old(queue) == [] then None else Some(old(queue)[0])
      ensures queue == if old(queue) == [] then [] else old(queue)[1..]
    {
      hide StateWire.Decode;
      if queue == [] {
        return None;
      }
      var f := queue[0];
      queuedCount, queuedBytes, queue := queuedCount - 1, queuedBytes - |f.payload|, queue[1..];
      r := Some(f);
    }

    /** receive_stream_response. */
    method ReceiveStream() returns (r: Option<Frame>)
      requires StreamValid() && Aligned()
      modifies this`input, this`extracted, socket
      ensures StreamValid() && |socket.script| <= |old(socket.script)|
      ensures r.Some? ==> extracted == old(extracted) + [r.value] && Aligned() && |socket.script| < |old(socket.script)|
      ensures r.None? ==> extracted == old(extracted)
      ensures old(socket.Eager()) && old(Upcoming()) != [] && Acceptable(old(Upcoming())[0], MAX_RESPONSE) ==>
        r == Some(old(Upcoming())[0]) && socket.Eager() && Upcoming() == old(Upcoming())[1..]
    {
      hide *;
      ghost var first := true;
      while true
        invariant StreamValid() && Aligned() && extracted == old(extracted)
        invariant |socket.script| <= |old(socket.script)|
        invariant first ==> socket.Eager() == old(socket.Eager()) && Upcoming() == old(Upcoming())
        invariant !first ==>
          !(old(socket.Eager()) && old(Upcoming()) != [] && Acceptable(old(Upcoming())[0], MAX_RESPONSE))
        decreases |socket.script|
      {
        var arrival := ReceiveEventFrame();
        if arrival.Arrived? {
          return Some(arrival.frame);
        }
        first := false;
        if !arrival.NotYet? {
          return None;
        }
        var ready := socket.Wait();
        if !ready {
          return None;
        }
      }
    }

    /** An event that arrives in front of a reply: queued if it is state, applied if it is a revocation. */
    method Absorb(f: Frame) returns (ok: bool)
      requires QueueValid() && IsEvent(f.flags)
      modifies this`queue, this`queuedCount, this`queuedBytes, this`grantedScopes
      ensures QueueValid()
      ensures ok <==> Absorbs(old(queue), f)
      ensures ok ==> grantedScopes == ScopesAfter(old(grantedScopes), f)
      ensures ok ==> queue == old(queue) + if IsState(f) then [f] else []
      ensures !ok ==> queue == old(queue)
    {
      hide QueueValid, Revocation, StateWire.Decode, ScopesOf;
      if f.opcode == OP_STATE_EVENT {
        ok := QueueEvent(f);
      } else {
        var revoked := Revocation(f);
        ok := revoked.Some?;
        if ok {
          grantedScopes := grantedScopes - ScopesOf(revoked.value);
        }
      }
    }

    /** Behind the arrival of a frame: everything but the frame itself is accounted for. */
    ghost predicate JustArrived(before: seq<Frame>, f: Frame)
      reads this, socket
    {
      && QueueValid() && StreamValid() && Aligned() && extracted == before + [f]
      && InOrder(before, delivered, queue) && Settles(initial, before, queue, grantedScopes)
    }

    /** An event ahead of the reply: absorbed, or the connection fails. */
    method AbsorbArrived(f: Frame, ghost before: seq<Frame>) returns (ok: bool)
      requires JustArrived(before, f) && IsEvent(f.flags) && open
      modifies this`open, this`queue, this`queuedCount, this`queuedBytes, this`grantedScopes
      ensures Valid() && open == ok
      ensures ok <==> Absorbs(old(queue), f)
      ensures ok ==> grantedScopes == ScopesAfter(old(grantedScopes), f)
      ensures queue == old(queue) + if ok && IsState(f) then [f] else []
    {
      hide QueueValid, StreamValid, Aligned, InOrder, Settles, ScopesAfter, Absorbs, IsState;
      ArrivalSettles(initial, before, queue, grantedScopes, f);
      ArrivalInOrder(before, delivered, queue, f);
      assert queue + [] == queue;
      ok := Absorb(f);
      if !ok {
        Fail();
      }
    }

    /** The reply itself: understood, or the connection fails. */
    method TakeReply(f: Frame, opcode: u16, id: u64, ghost before: seq<Frame>) returns (r: Answer)
      requires JustArrived(before, f) && !IsEvent(f.flags) && open
      modifies this`open, this`sequence
      ensures Valid() && open == r.Replied?
      ensures var reply := Response.Parse(f, opcode, id);
        if reply.None? || Settle(opcode, reply.value).None? then r.Lost?
        else r == Replied(Settle(opcode, reply.value).value)
      ensures sequence == if r.Replied? && r.settled.number.Some? then r.settled.number.value else old(sequence)
    {
      hide QueueValid, StreamValid, Aligned, InOrder, Settles, ScopesAfter, Response.Parse, Settle;
      NoEventNoScopes(grantedScopes, f);
      ArrivalSettles(initial, before, queue, grantedScopes, f);
      ArrivalInOrder(before, delivered, queue, f);
      var reply := Response.ParseResponse(f, opcode, id);
      var settled := if reply.Some? then Settle(opcode, reply.value) else None;
      if settled.None? {
        Fail();
        return Lost;
      }
      if settled.value.number.Some? {
        sequence := settled.value.number.value;
      }
      r := Replied(settled.value);
    }

    /** read_response: events that arrive before the reply are queued, or applied, on the way. */
    method ReadResponse(opcode: u16, id: u64) returns (r: Answer)
      requires Valid() && open
      modifies this`open, this`input, this`queue, this`queuedCount, this`queuedBytes, this`extracted, socket
      modifies this`grantedScopes, this`sequence
      ensures Valid()
      ensures r.Replied? ==>
        && open && |extracted| > |old(extracted)|
        && var reply := Response.Parse(extracted[|extracted| - 1], opcode, id);
           && reply.Some? && Settle(opcode, reply.value) == Some(r.settled)
           && sequence == (if r.settled.number.Some? then r.settled.number.value else old(sequence))
           && grantedScopes == WireScopes(old(grantedScopes), extracted[|old(extracted)|..])
           && (old(Current()) ==> Current())
      ensures old(extracted) <= extracted && old(queue) <= queue
      ensures r.Lost? ==> !open && sequence == old(sequence)
      ensures old(socket.Eager()) && Answers(old(queue), old(Upcoming()), opcode, id) ==>
        && r.Replied? && extracted == old(extracted) + UpToReply(old(Upcoming()))
        && queue == old(queue) + States(UpToReply(old(Upcoming())))
    {
      hide Response.Parse, QueueValid, StreamValid, Aligned, States, Settle, IsState, CutStream;
      hide ScopesAfter, WireScopes, Settles, InOrder, Answers, Absorbs, Acceptable, UpToReply, Ahead;
      ghost var start, coming := |extracted|, Upcoming();
      ghost var sure := old(socket.Eager()) && Answers(old(queue), coming, opcode, id);
      WireNone(grantedScopes, extracted);
      ReadStart(extracted, queue, coming);
      while true
        invariant Valid() && open && sequence == old(sequence)
        invariant old(extracted) <= extracted && old(queue) <= queue
        invariant grantedScopes == WireScopes(old(grantedScopes), extracted[start..])
        invariant old(Current()) ==> Current()
        invariant sure ==> socket.Eager() && Answers(queue, Upcoming(), opcode, id)
        invariant sure ==> Ahead(old(extracted), old(queue), coming, extracted, queue, Upcoming())
        decreases |socket.script|
      {
        ghost var before, waiting, upcoming := extracted, queue, Upcoming();
        if sure {
          AnswersHead(queue, upcoming, opcode, id);
        }
        OrderPrefix(extracted, delivered, queue);
        var frame := ReceiveStream();
        if frame.None? {
          Fail();
          return Lost;
        }
        var f := frame.value;
        Taken(initial, old(grantedScopes), before, start, f);
        if !IsEvent(f.flags) {
          NoEventNoScopes(grantedScopes, f);
          if sure {
            AheadDone(old(extracted), old(queue), coming, before, waiting, upcoming);
          }
          r := TakeReply(f, opcode, id, before);
          return;
        }
        if sure {
          AheadNext(old(extracted), old(queue), coming, before, waiting, upcoming);
          assert waiting + [] == waiting;
        }
        var absorbed := AbsorbArrived(f, before);
        if !absorbed {
          return Lost;
        }
      }
    }

    /** The oldest queued event, handed to the caller. */
    method DeliverQueued() returns (event: StateWire.Event)
      requires Valid() && queue != []
      modifies this`queue, this`queuedCount, this`queuedBytes, this`delivered, this`grantedScopes
      ensures Valid()
      ensures grantedScopes == if event.domain == GRANTS_DOMAIN then ScopesOf(event.grantedScopes) else old(grantedScopes)
      ensures open && old(Current()) ==>
        (Current() <==> HeadCurrent(old(queue), extracted))
      ensures delivered == old(delivered) + [old(queue)[0]] && queue == old(queue)[1..]
      ensures StateWire.Decode(old(queue)[0].payload) == Some(event)
    {
      hide StateWire.Decode, StreamValid, Aligned, States, Revocation, WireScopes, TakenSince, QueuedGrant, ScopesOf, Settles;
      var queued := TakeEvent();
      var e := StateWire.ReadEvent(queued.value.payload);
      event := e.value;
      if open {
        DeliverySettles(initial, extracted, delivered, old(queue), grantedScopes);
        if Current() {
          HeadCurrentExactly(initial, extracted, delivered, old(queue), grantedScopes);
        }
      }
      if event.domain == GRANTS_DOMAIN {
        grantedScopes := ScopesOf(event.grantedScopes);
      }
      delivered := delivered + [queued.value];
      assert delivered + queue == old(delivered) + old(queue);
    }

    /** The next frame to arrive, with nothing queued. */
    method DeliverArrival() returns (r: Next)
      requires Valid() && open && queue == []
      modifies this`open, this`input, this`extracted, this`delivered, this`grantedScopes, socket
      ensures Valid()
      ensures grantedScopes ==
        if r.Delivered? && r.event.domain == GRANTS_DOMAIN then ScopesOf(r.event.grantedScopes)
        else if r.Revoked? then old(grantedScopes) - ScopesOf(r.scopes)
        else old(grantedScopes)
      ensures old(Current()) && open ==> Current()
      ensures r.Delivered? ==>
        && |delivered| == |old(delivered)| + 1 && delivered[..|delivered| - 1] == old(delivered)
        && StateWire.Decode(delivered[|delivered| - 1].payload) == Some(r.event)
      ensures !r.Delivered? ==> delivered == old(delivered)
      ensures r.Broken? ==> !open
    {
      hide StateWire.Decode, QueueValid, StreamValid, Aligned, States, Revocation, WireScopes, TakenSince, QueuedGrant, ScopesOf, Settles, InOrder;
      var arrival := WaitFrame();
      if arrival.NotYet? {
        return TimedOut;
      }
      OrderPrefix(old(extracted), delivered, queue);
      if !arrival.Arrived? {
        Fail();
        return Broken;
      }
      var f := arrival.frame;
      ArrivalInOrder(old(extracted), delivered, queue, f);
      ArrivalSettles(initial, old(extracted), queue, grantedScopes, f);
      WireAppend(initial, old(extracted), f);
      if f.opcode == OP_SESSION_REVOKED {
        var scopes := Revocation(f);
        if scopes.None? {
          Fail();
          return Broken;
        }
        PublicEvent(f);
        NoGrant(f);
        grantedScopes := grantedScopes - ScopesOf(scopes.value);
        return Revoked(scopes.value);
      }
      if f.opcode != OP_STATE_EVENT || f.flags != FLAG_EVENT || f.requestId != 0 {
        Fail();
        return Broken;
      }
      var event := StateWire.ReadEvent(f.payload);
      if event.None? {
        Fail();
        return Broken;
      }
      StateTakesNothing(grantedScopes, f);
      if event.value.domain == GRANTS_DOMAIN {
        grantedScopes := ScopesOf(event.value.grantedScopes);
      }
      DirectOrder(old(extracted), delivered, f);
      delivered := delivered + [f];
      return Delivered(event.value);
    }

    /**
     * ksd_state_next: the oldest queued event, or the next that arrives. What
     * was queued can still be taken after the connection has failed.
     */
    method StateNext() returns (r: Next)
      requires Valid()
      modifies this`open, this`input, this`queue, this`queuedCount, this`queuedBytes, this`extracted, this`delivered, socket
      modifies this`grantedScopes
      ensures Valid()
      ensures grantedScopes ==
        if r.Delivered? && r.event.domain == GRANTS_DOMAIN then ScopesOf(r.event.grantedScopes)
        else if r.Revoked? then old(grantedScopes) - ScopesOf(r.scopes)
        else old(grantedScopes)
      ensures old(open) && old(queue) != [] && old(Current()) ==>
        (Current() <==> HeadCurrent(old(queue), extracted))
      ensures old(queue) == [] && old(Current()) && open ==> Current()
      ensures r.Delivered? ==>
        && |delivered| == |old(delivered)| + 1 && delivered[..|delivered| - 1] == old(delivered)
        && StateWire.Decode(delivered[|delivered| - 1].payload) == Some(r.event)
      ensures !r.Delivered? ==> delivered == old(delivered)
      ensures old(queue) != [] ==>
        && r.Delivered? && delivered == old(delivered) + [old(queue)[0]] && queue == old(queue)[1..]
        && extracted == old(extracted) && open == old(open)
      ensures r.Broken? ==> !open
    {
      hide *;
      if queue != [] {
        var event := DeliverQueued();
        r := Delivered(event);
      } else if open {
        r := DeliverArrival();
      } else {
        r := Broken;
      }
    }

    /** The receive loop of read_event: a frame, a deadline that passed, or a failure. */
    method WaitFrame() returns (r: Arrival)
      requires StreamValid() && Aligned()
      modifies this`input, this`extracted, socket
      ensures StreamValid()
      ensures r.Arrived? ==> extracted == old(extracted) + [r.frame]
      ensures r.Arrived? || r.NotYet? ==> Aligned()
      ensures !r.Arrived? ==> extracted == old(extracted)
    {
      hide *;
      while true
        invariant StreamValid() && Aligned() && extracted == old(extracted)
        decreases |socket.script|
      {
        r := ReceiveEventFrame();
        if !r.NotYet? {
          return;
        }
        var ready := socket.Wait();
        if !ready {
          return;
        }
      }
    }
  }

  lemma WireNone(granted: Scopes, fs: seq<Frame>)
    ensures WireScopes(granted, fs[|fs|..]) == granted
  {
  }

  /** One more frame, seen from the beginning and from a start in between. */
  lemma Taken(initial: Scopes, granted: Scopes, fs: seq<Frame>, start: nat, f: Frame)
    requires start <= |fs|
    ensures WireScopes(granted, (fs + [f])[start..]) == ScopesAfter(WireScopes(granted, fs[start..]), f)
    ensures WireScopes(initial, fs + [f]) == ScopesAfter(WireScopes(initial, fs), f)
  {
    hide ScopesAfter;
    var all := (fs + [f])[start..];
    assert all[..|all| - 1] == fs[start..];
    WireAppend(initial, fs, f);
  }

  lemma ArrivalInOrder(fs: seq<Frame>, delivered: seq<Frame>, queue: seq<Frame>, f: Frame)
    requires InOrder(fs, delivered, queue)
    ensures InOrder(fs + [f], delivered, if IsState(f) then queue + [f] else queue)
    ensures delivered + queue <= States(fs + [f])
  {
    StatesAppend(fs, f);
  }

  lemma OrderPrefix(fs: seq<Frame>, delivered: seq<Frame>, queue: seq<Frame>)
    requires InOrder(fs, delivered, queue)
    ensures delivered + queue <= States(fs)
  {
  }

  lemma DirectOrder(fs: seq<Frame>, delivered: seq<Frame>, f: Frame)
    requires InOrder(fs, delivered, []) && IsState(f)
    ensures InOrder(fs + [f], delivered + [f], [])
  {
    StatesAppend(fs, f);
    assert delivered + [] == delivered && delivered + [f] + [] == delivered + [f];
  }

  lemma PublicEvent(f: Frame)
    requires Revocation(f).Some?
    ensures IsEvent(f.flags)
  {
  }

  lemma NoEventNoScopes(granted: Scopes, f: Frame)
    requires !IsEvent(f.flags)
    ensures ScopesAfter(granted, f) == granted && !IsState(f)
  {
  }

  lemma NoGrant(f: Frame)
    requires f.opcode == OP_SESSION_REVOKED
    ensures GrantOf(f).None? && !IsState(f)
    ensures IsEvent(f.flags) && Revocation(f).Some? ==> TakenBy(f) == ScopesOf(Revocation(f).value)
  {
  }

  /** Where a reading stands: behind some of the frames that were coming, the state events among them queued. */
  ghost predicate Ahead(extracted: seq<Frame>, queue: seq<Frame>, coming: seq<Frame>,
                        now: seq<Frame>, waiting: seq<Frame>, left: seq<Frame>)
  {
    && now + UpToReply(left) == extracted + UpToReply(coming)
    && waiting + States(UpToReply(left)) == queue + States(UpToReply(coming))
  }

  lemma ReadStart(extracted: seq<Frame>, queue: seq<Frame>, coming: seq<Frame>)
    ensures Ahead(extracted, queue, coming, extracted, queue, coming)
  {
  }

  lemma AnswersHead(queue: seq<Frame>, fs: seq<Frame>, opcode: u16, id: u64)
    requires Answers(queue, fs, opcode, id)
    ensures fs != [] && Acceptable(fs[0], MAX_RESPONSE)
    ensures IsEvent(fs[0].flags) ==>
      Absorbs(queue, fs[0]) && Answers(if IsState(fs[0]) then queue + [fs[0]] else queue, fs[1..], opcode, id)
    ensures !IsEvent(fs[0].flags) ==>
      var reply := Response.Parse(fs[0], opcode, id); reply.Some? && Settle(opcode, reply.value).Some?
  {
  }

  lemma {:induction false} StatesFront(f: Frame, fs: seq<Frame>)
    ensures States([f] + fs) == (if IsState(f) then [f] else []) + States(fs)
    decreases |fs|
  {
    hide IsState;
    if fs == [] {
      assert [f] + fs == [f] && [f][..0] == [];
    } else {
      var front := fs[..|fs| - 1];
      StatesFront(f, front);
      assert ([f] + fs)[..|fs|] == [f] + front;
    }
  }

  lemma AheadNext(extracted: seq<Frame>, queue: seq<Frame>, coming: seq<Frame>,
                  now: seq<Frame>, waiting: seq<Frame>, left: seq<Frame>)
    requires Ahead(extracted, queue, coming, now, waiting, left) && left != [] && IsEvent(left[0].flags)
    ensures Ahead(extracted, queue, coming, now + [left[0]],
                  waiting + (if IsState(left[0]) then [left[0]] else []), left[1..])
  {
    hide States, IsState;
    var f, more := left[0], UpToReply(left[1..]);
    StatesFront(f, more);
    assert now + ([f] + more) == now + [f] + more;
    var queued := if IsState(f) then [f] else [];
    assert waiting + (queued + States(more)) == waiting + queued + States(more);
  }

  lemma AheadDone(extracted: seq<Frame>, queue: seq<Frame>, coming: seq<Frame>,
                  now: seq<Frame>, waiting: seq<Frame>, left: seq<Frame>)
    requires Ahead(extracted, queue, coming, now, waiting, left) && left != [] && !IsEvent(left[0].flags)
    ensures now + [left[0]] == extracted + UpToReply(coming) && waiting == queue + States(UpToReply(coming))
  {
    assert States([left[0]]) == [] by {
      assert [left[0]][..0] == [];
    }
    assert waiting + [] == waiting;
  }

  /** Over every run of reading and taking: when the cached scopes are what the wire says. */
  lemma CacheExactly(c: Connection)
    requires c.Valid() && c.open
    ensures c.Current() <==>
      if QueuedGrant(c.queue).Some? then c.grantedScopes == QueuedGrant(c.queue).value - TakenSince(c.extracted)
      else c.grantedScopes !! TakenSince(c.extracted)
  {
    hide WireScopes, TakenSince, QueuedGrant, States, Settles, InOrder;
    CurrentExactly(c.initial, c.extracted, c.delivered, c.queue, c.grantedScopes);
  }

  // ----- a run on which the cache goes back ------------------------------------------

  const GRANT_CHANGED: u32 := 12
  const OP_PING_ID: u64 := 1

  function GrantEvent(mask: u32): (e: StateWire.Event) {
    StateWire.Event(GRANT_CHANGED, GRANTS_DOMAIN, 0, 0, mask, 0, StateWire.NO_WINDOW, [])
  }

  function GrantFrame(mask: u32): (f: Frame)
    requires StateWire.Encodable(GrantEvent(mask))
  {
    Frame(MAGIC, MAJOR, MINOR, OP_STATE_EVENT, FLAG_EVENT, 0, StateWire.Encode(GrantEvent(mask)))
  }

  function RevocationFrame(mask: u32): (f: Frame) {
    Frame(MAGIC, MAJOR, MINOR, OP_SESSION_REVOKED, FLAG_EVENT, 0, Le32(mask) + Le32(0))
  }

  const PONG: Frame := Frame(MAGIC, MAJOR, MINOR, OP_PING, FLAG_RESPONSE, OP_PING_ID, Response.Words(0, 0))

  lemma GrantEventGood(mask: u32)
    ensures StateWire.GoodEvent(GrantEvent(mask)) && StateWire.Encodable(GrantEvent(mask))
    ensures |StateWire.Encode(GrantEvent(mask))| == 152
    ensures StateWire.Decode(StateWire.Encode(GrantEvent(mask))) == Some(GrantEvent(mask))
  {
    hide StateWire.Encode, StateWire.Decode;
    Response.EmptyIsText();
    StateWire.EventRoundTrip(GrantEvent(mask));
    StateWire.EncodeLength(GrantEvent(mask));
  }

  lemma GrantFrameGood(mask: u32)
    requires StateWire.Encodable(GrantEvent(mask))
    ensures var f := GrantFrame(mask);
      && Packable(f) && Acceptable(f, MAX_RESPONSE) && IsState(f) && |f.payload| == 152
      && StateWire.Decode(f.payload) == Some(GrantEvent(mask)) && GrantOf(f) == Some(ScopesOf(mask))
  {
    hide StateWire.Encode, StateWire.Decode, StateWire.Encodable, StateWire.GoodEvent, ScopesOf;
    GrantEventGood(mask);
  }

  lemma RevocationFrameGood(mask: u32)
    requires mask != 0
    ensures var f := RevocationFrame(mask);
      && Packable(f) && Acceptable(f, MAX_RESPONSE) && IsEvent(f.flags) && !IsState(f) && Revocation(f) == Some(mask)
      && GrantOf(f) == None && TakenBy(f) == ScopesOf(mask)
  {
    hide Le32, FromLe32, ScopesOf, StateWire.Decode;
    var f := RevocationFrame(mask);
    Le32RoundTrip(mask);
    Le32RoundTrip(0);
    assert f.payload[..4] == Le32(mask) && f.payload[4..] == Le32(0);
  }

  lemma PongGood()
    ensures Packable(PONG) && Acceptable(PONG, MAX_RESPONSE) && !IsEvent(PONG.flags) && !IsState(PONG)
    ensures Response.Parse(PONG, OP_PING, OP_PING_ID) == Some(Response.Done(0, []))
    ensures Settle(OP_PING, Response.Done(0, [])) == Some(Settled(Response.Done(0, []), None))
    ensures GrantOf(PONG) == None && TakenBy(PONG) == {}
  {
    hide Le32, FromLe32;
    Response.WordsRead(0, 0, []);
    assert Response.Words(0, 0) + [] == Response.Words(0, 0);
  }

  lemma SmallMasks()
    ensures ScopesOf(3) == {0, 1} && ScopesOf(1) == {0} && ScopesOf(2) == {1}
  {
    forall i: nat
      ensures Bit(3, i) <==> i < 2
      ensures Bit(1, i) <==> i < 1
      ensures Bit(2, i) <==> i == 1
    {
      if i >= 1 {
        ZeroBits(i - 1);
        assert Bit(3, i) == Bit(1, i - 1) && Bit(1, i) == Bit(0, i - 1) && Bit(2, i) == Bit(1, i - 1);
      }
      if i >= 2 {
        ZeroBits(i - 2);
        assert Bit(1, i - 1) == Bit(0, i - 2);
      }
    }
  }

  lemma {:induction false} ZeroBits(i: nat)
    ensures !Bit(0, i)
    decreases i
  {
    if i > 0 {
      ZeroBits(i - 1);
    }
  }

  /** What comes behind the first grant event: another that announces less, or a revocation. */
  ghost predicate TakesOne(second: Frame) {
    StateWire.Encodable(GrantEvent(1)) && (second == GrantFrame(1) || second == RevocationFrame(2))
  }

  lemma SecondGood(second: Frame)
    requires TakesOne(second)
    ensures Packable(second) && Acceptable(second, MAX_RESPONSE) && IsEvent(second.flags)
    ensures ScopesAfter({0, 1}, second) == {0}
    ensures if IsState(second) then |second.payload| == 152 && StateWire.Decode(second.payload).Some? else Revocation(second).Some?
  {
    hide StateWire.Encode, StateWire.Decode, StateWire.Encodable, ScopesOf, GrantOf, TakenBy, GrantEvent;
    SmallMasks();
    GrantFrameGood(1);
    RevocationFrameGood(2);
  }

  lemma ReadingAnswers(first: Frame, second: Frame)
    requires StateWire.Encodable(GrantEvent(3)) && first == GrantFrame(3) && TakesOne(second)
    ensures var fs := [first, second, PONG]; Answers([], fs, OP_PING, OP_PING_ID) && UpToReply(fs) == fs
  {
    hide StateWire.Encode, StateWire.Decode, StateWire.Encodable, ScopesOf, GrantOf, TakenBy, GrantEvent, GrantFrame, Response.Parse, Settle, Acceptable, TakesOne, Revocation;
    GrantFrameGood(3);
    SecondGood(second);
    PongGood();
    var fs := [first, second, PONG];
    var q1 := [] + [first];
    assert PayloadBytes(q1) == 152 by {
      PayloadBytesAppend([], first);
    }
    var q2 := if IsState(second) then q1 + [second] else q1;
    assert fs[1..] == [second, PONG] && fs[1..][1..] == [PONG];
    assert Answers(q2, [PONG], OP_PING, OP_PING_ID);
    assert Answers(q1, [second, PONG], OP_PING, OP_PING_ID);
    assert UpToReply([PONG]) == [PONG] && UpToReply([second, PONG]) == [second] + [PONG];
  }

  lemma ReadingScopes(first: Frame, second: Frame)
    requires StateWire.Encodable(GrantEvent(3)) && first == GrantFrame(3) && TakesOne(second)
    ensures var fs := [first, second, PONG];
      && States(fs) == [first] + (if IsState(second) then [second] else [])
      && WireScopes({}, fs) == {0} && GrantOf(first) == Some({0, 1})
  {
    hide StateWire.Encode, StateWire.Decode, StateWire.Encodable, ScopesOf, GrantOf, TakenBy, GrantEvent, GrantFrame, Response.Parse, Settle, Acceptable, TakesOne, Revocation;
    SmallMasks();
    GrantFrameGood(3);
    SecondGood(second);
    PongGood();
    StatesAppend([], first);
    StatesAppend([first], second);
    StatesAppend([first, second], PONG);
    assert [] + [first] == [first] && [first] + [second] == [first, second] && [first, second] + [PONG] == [first, second, PONG];
    WireAppend({}, [], first);
    WireAppend({}, [first], second);
    WireAppend({}, [first, second], PONG);
    TakeNone({0});
  }

  /** Both events arrive ahead of a reply, and reading it queues those that are state and applies both. */
  method ReadBoth(first: Frame, second: Frame) returns (c: Connection)
    requires StateWire.Encodable(GrantEvent(3)) && first == GrantFrame(3) && TakesOne(second)
    ensures fresh(c) && fresh(c.socket) && c.Valid() && c.open && c.Current()
    ensures c.extracted == [first, second, PONG] && c.grantedScopes == {0} == WireScopes(c.initial, c.extracted)
    ensures c.queue == [first] + (if IsState(second) then [second] else [])
  {
    hide StateWire.Decode, StateWire.Encode, StateWire.Encodable, Answers, UpToReply, States, WireScopes, ScopesOf, Pack, PackAll, CutStream, TakesOne, GrantFrame, GrantOf, ScopesAfter, Revocation, TakenBy;
    hide Settles, InOrder, Acceptable, Response.Parse, Settle;
    var fs := [first, second, PONG];
    ReadingAnswers(first, second);
    ReadingScopes(first, second);
    GrantFrameGood(3);
    SecondGood(second);
    PongGood();
    StreamOf(fs);
    var stream := PackAll(fs);
    var socket := new Socket(stream, seq(|stream|, _ => Deliver(1)));
    c := new Connection(socket, {});
    assert c.Upcoming() == fs;
    var answer := c.ReadResponse(OP_PING, OP_PING_ID);
    assert [] + fs == fs && fs[0..] == fs;
    assert [] + States(fs) == States(fs);
  }

  /**
   * A grant event for two scopes, then one for less or a revocation, arrive
   * ahead of a reply. Reading the reply leaves the cache as the wire says;
   * taking the first event sets it back. After the revocation nothing is left
   * in the queue, so it stays so.
   */
  method CacheGoesBack(first: Frame, second: Frame) returns (c: Connection, afterReply: Scopes)
    requires StateWire.Encodable(GrantEvent(3)) && first == GrantFrame(3) && TakesOne(second)
    ensures c.Valid() && c.open && WireScopes(c.initial, c.extracted) == {0}
    ensures afterReply == {0} && c.grantedScopes == {0, 1} && !c.Current()
    ensures second == RevocationFrame(2) ==> c.queue == []
  {
    hide StateWire.Decode, StateWire.Encode, States, WireScopes, ScopesOf, GrantFrame, TakesOne, GrantOf, HeadCurrent, QueuedGrant, TakenSince, Settles, InOrder, TakenBy;
    GrantFrameGood(3);
    SmallMasks();
    RevocationFrameGood(2);
    c := ReadBoth(first, second);
    afterReply := c.grantedScopes;
    var next := c.StateNext();
    assert c.delivered[|c.delivered| - 1] == first;
  }

  lemma StreamOf(fs: seq<Frame>)
    requires AllPackable(fs)
    ensures CutStream([] + PackAll(fs)).frames == fs
  {
    hide PackAll, CutStream, Partial;
    PartialEmpty();
    CutOfPacked(fs, []);
    assert PackAll(fs) + [] == PackAll(fs) == [] + PackAll(fs);
  }

  // ----- what holds however the stream is cut -------------------------------------

  /** While the connection is open it has exactly the frames of what it has received. */
  lemma FramesOfStream(c: Connection)
    requires c.Valid() && c.open
    ensures CutStream(c.socket.received) == Cut(c.extracted, c.input)
  {
    CutOfPacked(c.extracted, c.input);
  }

  /** Open or failed, its frames are the first frames of the whole stream. */
  lemma FramesOfWhole(c: Connection)
    requires c.Valid()
    ensures c.extracted <= CutStream(c.socket.stream).frames
  {
    hide PackAll, CutStream, Partial, States;
    FramesPrefix(c.extracted, c.socket.stream);
  }

  /** However two connections were fed the same bytes, they hold the same frames and the same remainder. */
  lemma SegmentationIndependent(a: Connection, b: Connection)
    requires a.Valid() && b.Valid() && a.open && b.open && a.socket.received == b.socket.received
    ensures a.extracted == b.extracted && a.input == b.input
  {
    FramesOfStream(a);
    FramesOfStream(b);
  }

  /** State events reach the caller in wire order, none lost, none twice. */
  lemma DeliveredInOrder(c: Connection)
    requires c.Valid()
    ensures c.delivered + c.queue <= States(CutStream(c.socket.stream).frames)
    ensures c.open ==> c.delivered + c.queue == States(CutStream(c.socket.received).frames)
  {
    FramesOfWhole(c);
    StatesPrefix(c.extracted, CutStream(c.socket.stream).frames);
    if c.open {
      FramesOfStream(c);
    }
  }
}

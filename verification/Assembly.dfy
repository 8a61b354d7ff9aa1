/**
 * Requests larger than one frame.
 *
 * The client splits a payload into frames and the authority puts them together
 * again; the two are inverse, and a session holds a reservation exactly while
 * a request is being put together.
 */
module Assembly {
  import opened Bytes
  import opened Frames

  const CHUNK: nat := 4096
  const MAX_TOTAL: nat := 4 * 1024 * 1024

  function ChunkFrame(opcode: u16, id: u64, more: bool, payload: seq<byte>): (f: Frame) {
    Frame(MAGIC, MAJOR, MINOR, opcode, if more then FLAG_MORE else 0, id, payload)
  }

  /** A payload as the frames that carry it. */
  function Split(opcode: u16, id: u64, payload: seq<byte>): (fs: seq<Frame>)
    ensures |fs| >= 1
    decreases |payload|
  {
    if |payload| <= CHUNK then [ChunkFrame(opcode, id, false, payload)]
    else [ChunkFrame(opcode, id, true, payload[..CHUNK])] + Split(opcode, id, payload[CHUNK..])
  }

  /** write_request, without the socket: a loop over the offset. None is a payload that may not be sent. */
  method WriteRequest(opcode: u16, payload: seq<byte>, id: u64) returns (r: Option<seq<Frame>>)
    ensures r == if |payload| > MAX_TOTAL then None else Some(Split(opcode, id, payload))
  {
    if |payload| > MAX_TOTAL {
      return None;
    }
    var frames: seq<Frame> := [];
    var offset := 0;
    ghost var whole := Split(opcode, id, payload);
    assert payload[0..] == payload;
    var more := true;
    while more
      invariant 0 <= offset <= |payload|
      invariant more ==> frames + Split(opcode, id, payload[offset..]) == whole
      invariant !more ==> frames == whole
      decreases more, |payload| - offset
    {
      var remaining := |payload| - offset;
      more := remaining > CHUNK;
      var size := if more then CHUNK else remaining;
      ghost var rest := payload[offset..];
      assert rest[..size] == payload[offset..offset + size];
      assert more ==> rest[CHUNK..] == payload[offset + size..];
      assert !more ==> rest == payload[offset..offset + size];
      ghost var before := frames;
      var f := ChunkFrame(opcode, id, more, payload[offset..offset + size]);
      frames := frames + [f];
      offset := offset + size;
      if more {
        assert before + ([f] + Split(opcode, id, payload[offset..])) == frames + Split(opcode, id, payload[offset..]);
      }
    }
    r := Some(frames);
  }

  // ----- reassembly ----------------------------------------------------------

  datatype State = Idle | Gathering(opcode: u16, id: u64, payload: seq<byte>, complete: bool)

  datatype Verdict = Invalid | Pending | Complete

  /** What the assembly checks of a frame before looking at its own state. */
  predicate Shaped(f: Frame) {
    && !Response(f.flags) && !IsEvent(f.flags) && f.requestId != 0
    && 1 <= |f.payload| <= CHUNK
    && f.flags == (if More(f.flags) then FLAG_MORE else 0)
    && (More(f.flags) ==> |f.payload| == CHUNK)
  }

  /** ksd_request_assembly_accept. */
  function Accept(s: State, f: Frame): (r: (State, Verdict)) {
    if !Shaped(f) then (s, Invalid)
    else match s
      case Idle =>
        if !More(f.flags) then (s, Invalid)
        else (Gathering(f.opcode, f.requestId, f.payload, false), Pending)
      case Gathering(opcode, id, payload, _) =>
        if f.opcode != opcode || f.requestId != id || |payload| + |f.payload| > MAX_TOTAL then (s, Invalid)
        else (Gathering(opcode, id, payload + f.payload, !More(f.flags)),
              if More(f.flags) then Pending else Complete)
  }

  /** All but the last are pending and the last completes, in state t. */
  ghost predicate Completes(s: State, fs: seq<Frame>, t: State)
    decreases |fs|
  {
    && fs != []
    && (if |fs| == 1 then Accept(s, fs[0]) == (t, Complete)
        else Accept(s, fs[0]).1 == Pending && Completes(Accept(s, fs[0]).0, fs[1..], t))
  }

  lemma MoreFlag()
    ensures More(FLAG_MORE) && !Response(FLAG_MORE) && !IsEvent(FLAG_MORE)
    ensures !More(0) && !Response(0) && !IsEvent(0)
  {
  }

  lemma {:induction false} TailCompletes(opcode: u16, id: u64, got: seq<byte>, rest: seq<byte>)
    requires id != 0 && rest != [] && |got| + |rest| <= MAX_TOTAL
    ensures Completes(Gathering(opcode, id, got, false), Split(opcode, id, rest),
                      Gathering(opcode, id, got + rest, true))
    decreases |rest|
  {
    MoreFlag();
    var s := Gathering(opcode, id, got, false);
    var fs := Split(opcode, id, rest);
    if |rest| > CHUNK {
      var head, tail := rest[..CHUNK], rest[CHUNK..];
      assert fs[1..] == Split(opcode, id, tail);
      assert Accept(s, fs[0]) == (Gathering(opcode, id, got + head, false), Pending);
      TailCompletes(opcode, id, got + head, tail);
      assert got + head + tail == got + rest;
    }
  }

  /** Splitting then gathering gives back the payload, for every payload that needs more than one frame. */
  lemma SplitCompletes(opcode: u16, id: u64, payload: seq<byte>)
    requires id != 0 && CHUNK < |payload| <= MAX_TOTAL
    ensures Completes(Idle, Split(opcode, id, payload), Gathering(opcode, id, payload, true))
  {
    MoreFlag();
    var fs := Split(opcode, id, payload);
    var head, tail := payload[..CHUNK], payload[CHUNK..];
    assert fs[1..] == Split(opcode, id, tail);
    TailCompletes(opcode, id, head, tail);
    assert head + tail == payload;
  }

  ghost predicate Standard(fs: seq<Frame>) {
    forall f :: f in fs ==> f.magic == MAGIC && f.major == MAJOR && f.minor == MINOR
  }

  lemma {:induction false} TailUnique(opcode: u16, id: u64, got: seq<byte>, fs: seq<Frame>, t: State) returns (rest: seq<byte>)
    requires Standard(fs) && Completes(Gathering(opcode, id, got, false), fs, t)
    ensures rest != [] && |got| + |rest| <= MAX_TOTAL
    ensures fs == Split(opcode, id, rest) && t == Gathering(opcode, id, got + rest, true)
    decreases |fs|
  {
    var f := fs[0];
    assert f in fs;
    if |fs| == 1 {
      rest := f.payload;
      assert fs == [f];
    } else {
      var tail := TailUnique(opcode, id, got + f.payload, fs[1..], t);
      rest := f.payload + tail;
      assert rest[..CHUNK] == f.payload && rest[CHUNK..] == tail;
      assert fs == [f] + fs[1..];
      assert got + f.payload + tail == got + rest;
    }
  }

  /** No payload has two encodings: whatever completes is exactly the split of what it delivers. */
  lemma CompleteIsSplit(fs: seq<Frame>, t: State)
    requires Standard(fs) && Completes(Idle, fs, t)
    ensures t.Gathering? && t.complete && t.id != 0 && CHUNK < |t.payload| <= MAX_TOTAL
    ensures fs == Split(t.opcode, t.id, t.payload)
  {
    var f := fs[0];
    assert f in fs;
    var rest := TailUnique(f.opcode, f.requestId, f.payload, fs[1..], t);
    assert t.payload[..CHUNK] == f.payload && t.payload[CHUNK..] == rest;
    assert fs == [f] + fs[1..];
  }

  // ----- the object ----------------------------------------------------------

  class RequestAssembly {
    var payload: seq<byte>
    var id: u64
    var opcode: u16
    var active: bool
    var complete: bool

    ghost function Value(): (s: State)
      reads this
    {
      if active then Gathering(opcode, id, payload, complete) else Idle
    }

    ghost predicate Valid()
      reads this
    {
      && (!active ==> payload == [] && !complete)
      && (active ==> CHUNK <= |payload| <= MAX_TOTAL)
    }

    constructor ()
      ensures Valid() && Value() == Idle
    {
      payload, id, opcode, active, complete := [], 0, 0, false, false;
    }

    method Clear()
      modifies this
      ensures Valid() && Value() == Idle
    {
      payload, id, opcode, active, complete := [], 0, 0, false, false;
    }

    method Take(f: Frame) returns (v: Verdict)
      requires Valid()
      modifies this
      ensures Valid()
      ensures (Value(), v) == Accept(old(Value()), f)
    {
      if Response(f.flags) || IsEvent(f.flags) || f.requestId == 0 || |f.payload| == 0 || |f.payload| > CHUNK {
        return Invalid;
      }
      var more := More(f.flags);
      if f.flags != (if more then FLAG_MORE else 0) || (more && |f.payload| != CHUNK) {
        return Invalid;
      }
      if !active {
        if !more {
          return Invalid;
        }
        payload := payload + f.payload;
        assert payload == f.payload;
        opcode, id, active, complete := f.opcode, f.requestId, true, false;
        return Pending;
      }
      if f.opcode != opcode || f.requestId != id || |payload| + |f.payload| > MAX_TOTAL {
        return Invalid;
      }
      payload := payload + f.payload;
      complete := !more;
      v := if more then Pending else Complete;
    }

    /** ksd_request_assembly_take: the whole request as one frame, and an idle assembly. */
    method Finish() returns (r: Option<Frame>)
      requires Valid()
      modifies this
      ensures Valid()
      ensures r == if old(Value()).Gathering? && old(Value()).complete
                   then Some(ChunkFrame(old(opcode), old(id), false, old(payload))) else None
      ensures Value() == if r.Some? then Idle else old(Value())
    {
      if !active || !complete || |payload| == 0 || |payload| > MAX_TOTAL {
        return None;
      }
      r := Some(ChunkFrame(opcode, id, false, payload));
      Clear();
    }
  }

  // ----- the session that owns it --------------------------------------------

  /** What the surroundings answer while one frame is handled. */
  datatype Surroundings = Surroundings(mayBegin: bool, inTime: bool, budget: bool, handled: bool)

  class Session {
    const assembly: RequestAssembly
    /** Reservations taken out of the assembly budget and not yet returned. */
    var held: nat
    /** The requests passed on, whole. */
    var requests: seq<Frame>

    ghost predicate Valid()
      reads this, assembly
    {
      assembly.Valid()
    }

    /** At a frame boundary a reservation is held exactly while an assembly is under way. */
    ghost predicate Balanced()
      reads this, assembly
    {
      held == if assembly.active then 1 else 0
    }

    constructor ()
      ensures Valid() && Balanced() && requests == [] && fresh(assembly) && assembly.Value() == Idle
    {
      assembly := new RequestAssembly();
      held, requests := 0, [];
    }

    /** handle_public_frame; ok is false when the connection is to be closed. */
    method HandleFrame(f: Frame, env: Surroundings) returns (ok: bool)
      requires Valid() && Balanced()
      modifies this, assembly
      ensures Valid() && Balanced()
      ensures old(assembly.Value()) == Idle && !More(f.flags) ==>
        assembly.Value() == Idle && requests == old(requests) + [f] && ok == env.handled
      ensures old(assembly.Value()) != Idle || More(f.flags) ==>
        var (s, v) := Accept(old(assembly.Value()), f);
        var admitted := env.inTime && (old(assembly.Value()) == Idle ==> env.mayBegin && env.budget);
        && (admitted && v == Pending ==> ok && assembly.Value() == s && requests == old(requests))
        && (admitted && v == Complete ==>
              && assembly.Value() == Idle && ok == env.handled
              && requests == old(requests) + [ChunkFrame(s.opcode, s.id, false, s.payload)])
        && (!admitted || v == Invalid ==> !ok && requests == old(requests))
    {
      var starting := !assembly.active;
      if starting && !More(f.flags) {
        requests := requests + [f];
        return env.handled;
      }
      if starting && !env.mayBegin {
        return false;
      }
      if !env.inTime {
        return false;
      }
      var v := assembly.Take(f);
      if v == Invalid {
        return false;
      }
      if starting {
        if !env.budget {
          assembly.Clear();
          return false;
        }
        held := held + 1;
      }
      if v == Pending {
        return true;
      }
      var whole := assembly.Finish();
      assembly.Clear();
      held := held - 1;
      if whole.None? {
        return false;
      }
      requests := requests + [whole.value];
      ok := env.handled;
    }

    /** The end of the connection returns what an unfinished request still holds. */
    method Close()
      requires Valid() && Balanced()
      modifies this, assembly
      ensures Valid() && Balanced() && held == 0 && assembly.Value() == Idle && requests == old(requests)
    {
      if assembly.active {
        assembly.Clear();
        held := held - 1;
      }
    }
  }

  /** A whole chunked request through a session: nothing is passed on until the last frame, then all of it. */
  method HandleChunked(session: Session, opcode: u16, id: u64, payload: seq<byte>)
    requires session.Valid() && session.Balanced() && session.assembly.Value() == Idle
    requires id != 0 && CHUNK < |payload| <= MAX_TOTAL
    modifies session, session.assembly
    ensures session.Valid() && session.Balanced() && session.held == 0
    ensures session.requests == old(session.requests) + [ChunkFrame(opcode, id, false, payload)]
  {
    hide Accept, Split;
    var frames := WriteRequest(opcode, payload, id);
    var fs := frames.value;
    SplitCompletes(opcode, id, payload);
    var i := 0;
    assert fs[0..] == fs;
    FirstMore(fs, Gathering(opcode, id, payload, true));
    while i < |fs|
      invariant 0 <= i <= |fs| && session.Valid() && session.Balanced()
      invariant i < |fs| ==>
        && Completes(session.assembly.Value(), fs[i..], Gathering(opcode, id, payload, true))
        && session.requests == old(session.requests)
        && (session.assembly.Value() == Idle ==> More(fs[i].flags))
      invariant i == |fs| ==>
        && session.assembly.Value() == Idle
        && session.requests == old(session.requests) + [ChunkFrame(opcode, id, false, payload)]
    {
      ghost var rest := fs[i..];
      assert rest[0] == fs[i] && rest[1..] == fs[i + 1..];
      PendingGathers(session.assembly.Value(), fs[i]);
      var ok := session.HandleFrame(fs[i], Surroundings(true, true, true, true));
      i := i + 1;
    }
  }

  lemma FirstMore(fs: seq<Frame>, t: State)
    requires Completes(Idle, fs, t)
    ensures More(fs[0].flags)
  {
  }

  lemma PendingGathers(s: State, f: Frame)
    ensures Accept(s, f).1 != Invalid ==> Accept(s, f).0.Gathering?
  {
  }
}

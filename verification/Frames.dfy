/**
 * Frames: the 24-byte header, packing and unpacking, and a byte stream cut
 * into frames.
 *
 * A stream has one reading: the frames it begins with, and less than one more.
 * How the bytes arrived plays no part in it.
 */
module Frames {
  import opened Bytes

  const HEADER_SIZE: nat := 24
  const MAGIC: seq<byte> := [0x4B, 0x53, 0x44, 0x50]
  const MAJOR: u16 := 3
  const MINOR: u16 := 0
  const FLAG_RESPONSE: nat := 1
  const FLAG_EVENT: nat := 2
  const FLAG_MORE: nat := 4
  const OP_PING: u16 := 3

  datatype Frame = Frame(
    magic: seq<byte>, major: u16, minor: u16, opcode: u16, flags: u16, requestId: u64, payload: seq<byte>)

  predicate Packable(f: Frame) {
    |f.magic| == 4 && |f.payload| < 0x1_0000_0000
  }

  predicate Response(flags: u16) {
    flags % 2 == 1
  }

  predicate IsEvent(flags: u16) {
    flags / 2 % 2 == 1
  }

  predicate More(flags: u16) {
    flags / 4 % 2 == 1
  }

  /** Which combinations of flags, request id and opcode the public protocol allows. */
  predicate PublicHeader(f: Frame) {
    && f.flags < 8
    && !(Response(f.flags) && IsEvent(f.flags)) && !(More(f.flags) && IsEvent(f.flags))
    && (if IsEvent(f.flags) then f.requestId == 0
        else f.requestId != 0 || (!Response(f.flags) && f.opcode == OP_PING && f.flags == 0))
  }

  function Head1(f: Frame): (r: seq<byte>)
    requires Packable(f)
    ensures |r| == 12
  {
    f.magic + Le16(f.major) + Le16(f.minor) + Le16(f.opcode) + Le16(f.flags)
  }

  function Pack(f: Frame): (r: seq<byte>)
    requires Packable(f)
    ensures |r| == HEADER_SIZE + |f.payload|
  {
    Head1(f) + Le32(|f.payload|) + Le64(f.requestId) + f.payload
  }

  function LengthField(b: seq<byte>): (n: u32)
    requires |b| >= HEADER_SIZE
  {
    FromLe32(b[12..16])
  }

  /** The frame a header and payload spell, before anything is checked. */
  function Spelled(b: seq<byte>): (f: Frame)
    requires |b| >= HEADER_SIZE
  {
    Frame(b[..4], FromLe16(b[4..6]), FromLe16(b[6..8]), FromLe16(b[8..10]), FromLe16(b[10..12]),
          FromLe64(b[16..24]), b[24..])
  }

  lemma Head1Slices(f: Frame, b: seq<byte>)
    requires Packable(f) && |b| >= 12 && b[..12] == Head1(f)
    ensures b[..4] == f.magic && b[4..6] == Le16(f.major) && b[6..8] == Le16(f.minor)
    ensures b[8..10] == Le16(f.opcode) && b[10..12] == Le16(f.flags)
  {
    var h := b[..12];
    assert h[..4] == f.magic && h[4..6] == Le16(f.major) && h[6..8] == Le16(f.minor);
    assert h[8..10] == Le16(f.opcode) && h[10..12] == Le16(f.flags);
  }

  lemma PackSlices(f: Frame)
    requires Packable(f)
    ensures var b := Pack(f);
      b[..12] == Head1(f) && b[12..16] == Le32(|f.payload|) && b[16..24] == Le64(f.requestId) && b[24..] == f.payload
  {
    hide Head1, Le32, Le64;
  }

  lemma PackSpelled(f: Frame)
    requires Packable(f)
    ensures Spelled(Pack(f)) == f && LengthField(Pack(f)) == |f.payload|
  {
    hide Le16, Le32, Le64, FromLe16, FromLe32, FromLe64, Pack, Head1;
    PackSlices(f);
    Head1Slices(f, Pack(f));
    Le16RoundTrip(f.major);
    Le16RoundTrip(f.minor);
    Le16RoundTrip(f.opcode);
    Le16RoundTrip(f.flags);
    Le32RoundTrip(|f.payload|);
    Le64RoundTrip(f.requestId);
  }

  /** Every well-sized byte string is the packing of the frame it spells. */
  lemma SpelledPacks(b: seq<byte>)
    requires |b| >= HEADER_SIZE && |b| == HEADER_SIZE + LengthField(b)
    ensures Packable(Spelled(b)) && Pack(Spelled(b)) == b
  {
    hide Le16, Le32, Le64, FromLe16, FromLe32, FromLe64;
    Le16Canonical(b[4..6]);
    Le16Canonical(b[6..8]);
    Le16Canonical(b[8..10]);
    Le16Canonical(b[10..12]);
    Le32Canonical(b[12..16]);
    Le64Canonical(b[16..24]);
    Pieces(b);
  }

  lemma Pieces(b: seq<byte>)
    requires |b| >= HEADER_SIZE
    ensures b == b[..4] + b[4..6] + b[6..8] + b[8..10] + b[10..12] + b[12..16] + b[16..24] + b[24..]
  {
  }

  predicate Acceptable(f: Frame, maximum: nat) {
    && f.magic == MAGIC && f.major == MAJOR && f.minor == MINOR
    && |f.payload| <= maximum && PublicHeader(f)
  }

  /** ksd_frame_unpack under the public rules. */
  function Unpack(b: seq<byte>, maximum: nat): (r: Option<Frame>) {
    if |b| < HEADER_SIZE || |b| != HEADER_SIZE + LengthField(b) || !Acceptable(Spelled(b), maximum) then None
    else Some(Spelled(b))
  }

  lemma UnpackPack(f: Frame, maximum: nat)
    requires Packable(f) && Acceptable(f, maximum)
    ensures Unpack(Pack(f), maximum) == Some(f)
  {
    hide Pack, Spelled, LengthField;
    PackSpelled(f);
  }

  lemma PackUnpack(b: seq<byte>, maximum: nat)
    requires Unpack(b, maximum).Some?
    ensures var f := Unpack(b, maximum).value; Packable(f) && Acceptable(f, maximum) && Pack(f) == b
  {
    hide Pack, Spelled;
    SpelledPacks(b);
  }

  // ----- a stream of frames --------------------------------------------------

  ghost predicate AllPackable(fs: seq<Frame>) {
    forall f :: f in fs ==> Packable(f)
  }

  function PackAll(fs: seq<Frame>): (r: seq<byte>)
    requires forall f | f in fs :: Packable(f)
  {
    if fs == [] then [] else PackAll(fs[..|fs| - 1]) + Pack(fs[|fs| - 1])
  }

  /** How many bytes the frame at the head of b takes, as far as b tells. */
  function Needed(b: seq<byte>): (n: nat)
    ensures n >= HEADER_SIZE
  {
    if |b| < HEADER_SIZE then HEADER_SIZE else HEADER_SIZE + LengthField(b)
  }

  /** Less than one whole frame. */
  predicate Partial(b: seq<byte>) {
    |b| < Needed(b)
  }

  datatype Cut = Cut(frames: seq<Frame>, rest: seq<byte>)

  /** A stream cut at its frame boundaries, with the incomplete frame left over. */
  function CutStream(b: seq<byte>): (c: Cut)
    decreases |b|
  {
    var n := Needed(b);
    if |b| < n then Cut([], b)
    else
      var more := CutStream(b[n..]);
      Cut([Spelled(b[..n])] + more.frames, more.rest)
  }

  lemma PackAllAppend(fs: seq<Frame>, f: Frame)
    requires AllPackable(fs) && Packable(f)
    ensures AllPackable(fs + [f]) && PackAll(fs + [f]) == PackAll(fs) + Pack(f)
  {
    assert (fs + [f])[..|fs|] == fs;
  }

  lemma {:induction false} PackAllFront(f: Frame, fs: seq<Frame>)
    requires Packable(f) && AllPackable(fs)
    ensures AllPackable([f] + fs) && PackAll([f] + fs) == Pack(f) + PackAll(fs)
    decreases |fs|
  {
    hide Pack;
    var all := [f] + fs;
    if fs == [] {
      assert all[..0] == [] && PackAll([]) == [];
    } else {
      var front := fs[..|fs| - 1];
      PackAllFront(f, front);
      assert all[..|all| - 1] == [f] + front;
    }
  }

  lemma {:induction false} PackAllConcat(a: seq<Frame>, b: seq<Frame>)
    requires AllPackable(a) && AllPackable(b)
    ensures AllPackable(a + b) && PackAll(a + b) == PackAll(a) + PackAll(b)
    decreases |b|
  {
    hide Pack;
    if b == [] {
      assert a + b == a && PackAll(b) == [];
    } else {
      var front := b[..|b| - 1];
      PackAllConcat(a, front);
      assert (a + b)[..|a + b| - 1] == a + front;
    }
  }

  /** The head of a packed frame says how long it is, whatever follows. */
  lemma PackNeeded(f: Frame, rest: seq<byte>)
    requires Packable(f)
    ensures Needed(Pack(f) + rest) == |Pack(f)|
  {
    hide Pack;
    PackSpelled(f);
    assert (Pack(f) + rest)[12..16] == Pack(f)[12..16];
  }

  /** Cutting finds exactly the frames that were packed, and exactly what was left over. */
  lemma {:induction false} CutOfPacked(fs: seq<Frame>, rest: seq<byte>)
    requires AllPackable(fs) && Partial(rest)
    ensures CutStream(PackAll(fs) + rest) == Cut(fs, rest)
    decreases |fs|
  {
    hide Pack, Spelled, LengthField;
    if fs == [] {
      assert PackAll(fs) + rest == rest;
    } else {
      var f, tail := fs[0], fs[1..];
      assert AllPackable(tail) && fs == [f] + tail;
      PackAllFront(f, tail);
      var more := PackAll(tail) + rest;
      assert PackAll(fs) + rest == Pack(f) + more;
      PackNeeded(f, more);
      PackSpelled(f);
      assert (Pack(f) + more)[..|Pack(f)|] == Pack(f) && (Pack(f) + more)[|Pack(f)|..] == more;
      CutOfPacked(tail, rest);
    }
  }

  lemma {:induction false} CutJoins(b: seq<byte>)
    ensures var c := CutStream(b); AllPackable(c.frames) && Partial(c.rest) && PackAll(c.frames) + c.rest == b
    decreases |b|
  {
    hide Pack, Spelled, LengthField, Needed, PackAll;
    var n := Needed(b);
    if |b| < n {
      PackNone();
      Regroup([], [], b);
    } else {
      var head := b[..n];
      HeadSpelled(b);
      CutJoins(b[n..]);
      var more := CutStream(b[n..]);
      PackAllFront(Spelled(head), more.frames);
      Regroup(head, PackAll(more.frames), more.rest);
      assert b == head + b[n..];
    }
  }

  lemma PackNone()
    ensures PackAll([]) == []
  {
  }

  lemma Regroup(a: seq<byte>, b: seq<byte>, c: seq<byte>)
    ensures a + b + c == a + (b + c)
  {
  }

  lemma NeededPrefix(b: seq<byte>)
    requires |b| >= Needed(b)
    ensures LengthField(b[..Needed(b)]) == LengthField(b)
  {
    assert b[..Needed(b)][12..16] == b[12..16];
  }

  lemma HeadSpelled(b: seq<byte>)
    requires |b| >= Needed(b)
    ensures var head := b[..Needed(b)]; Packable(Spelled(head)) && Pack(Spelled(head)) == head
  {
    hide Pack, Spelled, LengthField;
    NeededPrefix(b);
    SpelledPacks(b[..Needed(b)]);
  }

  /** A longer stream has the same frames first: what has been cut stays cut. */
  lemma CutPrefix(a: seq<byte>, b: seq<byte>)
    ensures CutStream(a).frames <= CutStream(a + b).frames
  {
    hide CutStream, PackAll;
    var c, d := CutStream(a), CutStream(CutStream(a).rest + b);
    CutJoins(a);
    CutJoins(c.rest + b);
    PackAllConcat(c.frames, d.frames);
    assert PackAll(c.frames) + c.rest + b == PackAll(c.frames) + (c.rest + b);
    assert PackAll(c.frames + d.frames) + d.rest == PackAll(c.frames) + (PackAll(d.frames) + d.rest);
    CutOfPacked(c.frames + d.frames, d.rest);
  }

  /** Whole frames that begin a stream are the first frames it is cut into. */
  lemma FramesPrefix(fs: seq<Frame>, all: seq<byte>)
    requires AllPackable(fs) && PackAll(fs) <= all
    ensures fs <= CutStream(all).frames
  {
    hide PackAll, CutStream, Partial;
    var got := PackAll(fs);
    PartialEmpty();
    CutOfPacked(fs, []);
    assert got + [] == got;
    assert all == got + all[|got|..];
    CutPrefix(got, all[|got|..]);
  }

  lemma PartialEmpty()
    ensures Partial([])
  {
  }
}

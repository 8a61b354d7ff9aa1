/**
 * Results of operations and the replies that carry them.
 *
 * What the authority builds the client accepts, with the longest text that
 * fits, and what the client accepts as an error the authority could have built.
 * A result never carries a tail and a descriptor at once.
 */
module Response {
  import opened Bytes
  import opened Frames
  import Utf8

  const OK: u32 := 0
  const REVOKED: u32 := 10
  const INTERNAL: u32 := 255
  const MESSAGE_CAPACITY: nat := 256
  const DIAGNOSTIC_CAPACITY: nat := 1024
  const MAX_RESPONSE: nat := 256 * 1024 * 1024 + 64

  predicate ValidStatus(status: u32) {
    status <= REVOKED || status == INTERNAL
  }

  /** n bytes are the longest text that begins data and fits the cap. */
  ghost predicate Longest(data: seq<byte>, cap: nat, n: nat) {
    && n <= |data| && n <= cap && Utf8.IsText(data[..n], false)
    && forall k :: n < k <= |data| && k <= cap ==> !Utf8.IsText(data[..k], false)
  }

  /** Shortening for the result and then for the reply is shortening once, for the reply. */
  lemma LongestTwice(data: seq<byte>, wide: nat, n: nat, narrow: nat, m: nat)
    requires narrow <= wide && Longest(data, wide, n) && Longest(data[..n], narrow, m)
    ensures Longest(data, narrow, m)
  {
    hide Utf8.IsText;
    assert forall k :: 0 <= k <= n ==> data[..n][..k] == data[..k];
  }

  // ----- the reply on the wire ------------------------------------------------

  /** What the client makes of a reply. */
  datatype Reply =
    | Done(detail: u32, tail: seq<byte>)
    | Refused(status: u32, detail: u32, message: seq<byte>)

  function Words(status: u32, detail: u32): (r: seq<byte>)
    ensures |r| == 8
  {
    Le32(status) + Le32(detail)
  }

  function ErrorBody(status: u32, detail: u32, message: Option<seq<byte>>): (r: seq<byte>)
    requires message.Some? ==> |message.value| < MESSAGE_CAPACITY
  {
    Words(status, detail) + if message.Some? then Le32(|message.value|) + message.value else []
  }

  function MessageOf(b: seq<byte>): (r: Option<seq<byte>>) {
    if b == [] then Some([])
    else if |b| < 4 || FromLe32(b[..4]) >= MESSAGE_CAPACITY || |b| != 4 + FromLe32(b[..4]) then None
    else if Utf8.Valid(b[4..], false) then Some(b[4..]) else None
  }

  /** parse_response. */
  function Parse(f: Frame, opcode: u16, id: u64): (r: Option<Reply>) {
    if f.opcode != opcode || f.requestId != id || !Response(f.flags) || IsEvent(f.flags) || |f.payload| < 8 then None
    else
      var status, detail := FromLe32(f.payload[..4]), FromLe32(f.payload[4..8]);
      if !ValidStatus(status) then None
      else if status == OK then Some(Done(detail, f.payload[8..]))
      else if More(f.flags) then None
      else
        var message := MessageOf(f.payload[8..]);
        if message.None? then None else Some(Refused(status, detail, message.value))
  }

  function ReplyFrame(request: Frame, more: bool, payload: seq<byte>): (f: Frame) {
    Frame(MAGIC, MAJOR, MINOR, request.opcode, FLAG_RESPONSE + (if more then FLAG_MORE else 0),
          request.requestId, payload)
  }

  lemma ReplyFlags(more: bool)
    ensures var flags := FLAG_RESPONSE + (if more then FLAG_MORE else 0);
      flags < 8 && Response(flags) && !IsEvent(flags) && (More(flags) <==> more)
  {
  }

  lemma WordsRead(status: u32, detail: u32, rest: seq<byte>)
    ensures var b := Words(status, detail) + rest;
      FromLe32(b[..4]) == status && FromLe32(b[4..8]) == detail && b[8..] == rest
  {
    hide Le32, FromLe32;
    var b := Words(status, detail) + rest;
    assert b[..4] == Le32(status) && b[4..8] == Le32(detail);
    Le32RoundTrip(status);
    Le32RoundTrip(detail);
  }

  lemma MessageRead(message: seq<byte>)
    requires |message| < MESSAGE_CAPACITY
    ensures MessageOf(Le32(|message|) + message) == if Utf8.Valid(message, false) then Some(message) else None
  {
    hide Le32, FromLe32, Utf8.Valid;
    Le32RoundTrip(|message|);
    var b := Le32(|message|) + message;
    assert b[..4] == Le32(|message|) && b[4..] == message;
  }

  /**
   * An error reply is understood, with its status, detail and message, exactly
   * when the status is one of the protocol's and the reply is not split.
   */
  lemma ErrorUnderstood(request: Frame, status: u32, detail: u32, message: Option<seq<byte>>, more: bool)
    requires status != OK
    requires message.Some? ==> |message.value| < MESSAGE_CAPACITY && Utf8.IsText(message.value, false)
    ensures var f := ReplyFrame(request, more, ErrorBody(status, detail, message));
      Parse(f, request.opcode, request.requestId) ==
        if ValidStatus(status) && !more
        then Some(Refused(status, detail, if message.Some? then message.value else []))
        else None
  {
    hide Le32, FromLe32, Utf8.Valid, Utf8.IsText;
    ReplyFlags(more);
    var rest := if message.Some? then Le32(|message.value|) + message.value else [];
    WordsRead(status, detail, rest);
    if message.Some? {
      MessageRead(message.value);
      Utf8.ValidIsText(message.value, false);
    }
  }

  /** Nothing else is understood as an error: such a reply is the body built from what was read. */
  lemma RefusalIsErrorBody(f: Frame, opcode: u16, id: u64)
    requires Parse(f, opcode, id).Some? && Parse(f, opcode, id).value.Refused?
    ensures var r := Parse(f, opcode, id).value;
      && ValidStatus(r.status) && r.status != OK && |r.message| < MESSAGE_CAPACITY && Utf8.IsText(r.message, false)
      && (f.payload == ErrorBody(r.status, r.detail, Some(r.message))
          || (r.message == [] && f.payload == ErrorBody(r.status, r.detail, None)))
  {
    hide Le32, FromLe32, Utf8.Valid, Utf8.IsText;
    var b, r := f.payload, Parse(f, opcode, id).value;
    Le32Canonical(b[..4]);
    Le32Canonical(b[4..8]);
    assert b[..8] == Words(r.status, r.detail) by {
      assert b[..8] == b[..4] + b[4..8];
    }
    assert b == b[..8] + b[8..];
    var rest := b[8..];
    Utf8.ValidIsText(r.message, false);
    if rest == [] {
      EmptyIsText();
    } else {
      Le32Canonical(rest[..4]);
      assert rest == rest[..4] + rest[4..];
    }
  }

  /** What a reply of this opcode, id and flags says, spelled out. */
  predicate Says(f: Frame, opcode: u16, id: u64, r: Reply) {
    && f.opcode == opcode && f.requestId == id && Response(f.flags) && !IsEvent(f.flags)
    && match r
       case Done(detail, tail) => f.payload == Words(OK, detail) + tail
       case Refused(status, detail, message) =>
         && ValidStatus(status) && status != OK && !More(f.flags)
         && |message| < MESSAGE_CAPACITY && Utf8.Valid(message, false)
         && (f.payload == ErrorBody(status, detail, Some(message)) || (message == [] && f.payload == ErrorBody(status, detail, None)))
  }

  /** A frame is taken for the reply r to a request exactly when it is of that opcode and id, is a reply, and says r. */
  lemma ParseExact(f: Frame, opcode: u16, id: u64, r: Reply)
    ensures Parse(f, opcode, id) == Some(r) <==> Says(f, opcode, id, r)
  {
    hide Le32, FromLe32, Utf8.Valid, Utf8.IsText, Words, MessageOf;
    if Parse(f, opcode, id) == Some(r) {
      var b := f.payload;
      if r.Refused? {
        RefusalIsErrorBody(f, opcode, id);
        Utf8.ValidIsText(r.message, false);
      } else {
        WordsSpelled(b);
      }
    }
    if Says(f, opcode, id, r) {
      if r.Refused? {
        var rest := if f.payload == ErrorBody(r.status, r.detail, Some(r.message)) then Le32(|r.message|) + r.message else [];
        WordsRead(r.status, r.detail, rest);
        MessageRead(r.message);
        NoMessage();
      } else {
        WordsRead(OK, r.detail, r.tail);
      }
    }
  }

  lemma NoMessage()
    ensures MessageOf([]) == Some([])
  {
  }

  lemma WordsSpelled(b: seq<byte>)
    requires |b| >= 8
    ensures b == Words(FromLe32(b[..4]), FromLe32(b[4..8])) + b[8..]
  {
    hide Le32, FromLe32;
    Le32Canonical(b[..4]);
    Le32Canonical(b[4..8]);
    assert b == b[..4] + b[4..8] + b[8..];
  }

  lemma EmptyIsText()
    ensures Utf8.Valid([], false) && Utf8.IsText([], false)
  {
    Utf8.ValidIsText([], false);
  }

  /** build_response. None is the refusal to build one. */
  method Build(request: Frame, status: u32, detail: u32, diagnostic: Option<seq<byte>>, tail: seq<byte>, more: bool)
    returns (r: Option<Frame>, ghost kept: nat)
    ensures diagnostic.Some? ==> Longest(diagnostic.value, MESSAGE_CAPACITY - 1, kept)
    ensures diagnostic.None? ==> kept == 0
    ensures r.Some? <==>
      request.requestId != 0 && (status == OK ==> kept == 0 && 8 + |tail| <= MAX_RESPONSE)
    ensures r.Some? ==> Packable(r.value) && Acceptable(r.value, MAX_RESPONSE)
    ensures r.Some? && status == OK ==>
      Parse(r.value, request.opcode, request.requestId) == Some(Done(detail, tail))
    ensures r.Some? && status != OK ==>
      Parse(r.value, request.opcode, request.requestId) ==
        if ValidStatus(status) && !more
        then Some(Refused(status, detail, if diagnostic.Some? then diagnostic.value[..kept] else []))
        else None
  {
    hide Le32, FromLe32, Utf8.IsText, Utf8.Valid, MessageOf;
    var length := 0;
    if diagnostic.Some? {
      length := Utf8.Truncate(diagnostic.value, MESSAGE_CAPACITY - 1);
    }
    kept := length;
    if request.requestId == 0 || (status == OK && length != 0) {
      return None, kept;
    }
    var payload := Words(status, detail);
    ReplyFlags(more);
    if status != OK {
      var message := if diagnostic.Some? then Some(diagnostic.value[..length]) else None;
      ErrorUnderstood(request, status, detail, message, more);
      if diagnostic.Some? {
        payload := payload + (Le32(length) + diagnostic.value[..length]);
      } else {
        payload := payload + [];
      }
      assert payload == ErrorBody(status, detail, message);
    } else {
      if |payload| + |tail| > MAX_RESPONSE {
        return None, kept;
      }
      payload := payload + tail;
      WordsRead(status, detail, tail);
    }
    r := Some(ReplyFrame(request, more, payload));
  }

  // ----- reading with a cursor --------------------------------------------------

  class Cursor {
    const data: seq<byte>
    var offset: nat

    ghost predicate Valid()
      reads this
    {
      offset <= |data|
    }

    constructor (data: seq<byte>)
      ensures Valid() && this.data == data && offset == 0
    {
      this.data := data;
      offset := 0;
    }

    /** All of what was asked for, or nothing and no movement. */
    method Take(length: nat) returns (r: Option<seq<byte>>)
      requires Valid()
      modifies this
      ensures Valid()
      ensures r.Some? <==> old(offset) + length <= |data|
      ensures r.Some? ==> offset == old(offset) + length && r.value == data[old(offset)..offset]
      ensures r.None? ==> offset == old(offset)
    {
      if length > |data| - offset {
        return None;
      }
      r := Some(data[offset..offset + length]);
      offset := offset + length;
    }

    method Word() returns (r: Option<u32>)
      requires Valid()
      modifies this
      ensures Valid()
      ensures r.Some? <==> old(offset) + 4 <= |data|
      ensures r.Some? ==> offset == old(offset) + 4 && r.value == FromLe32(data[old(offset)..old(offset) + 4])
      ensures r.None? ==> offset == old(offset)
    {
      var b := Take(4);
      r := if b.Some? then Some(FromLe32(b.value)) else None;
    }
  }

  /** parse_response over its cursor. */
  method ParseResponse(f: Frame, opcode: u16, id: u64) returns (r: Option<Reply>)
    ensures r == Parse(f, opcode, id)
  {
    hide Utf8.Valid, FromLe32;
    if f.opcode != opcode || f.requestId != id || !Response(f.flags) || IsEvent(f.flags) || |f.payload| < 8 {
      return None;
    }
    var cursor := new Cursor(f.payload);
    var status := cursor.Word();
    var detail := cursor.Word();
    if status.None? || detail.None? || !ValidStatus(status.value) {
      return None;
    }
    if status.value == OK {
      return Some(Done(detail.value, f.payload[cursor.offset..]));
    }
    if More(f.flags) {
      return None;
    }
    ghost var rest := f.payload[8..];
    var message: seq<byte> := [];
    if cursor.offset != |f.payload| {
      var length := cursor.Word();
      assert |rest| >= 4 ==> rest[..4] == f.payload[8..12];
      if length.None? || length.value >= MESSAGE_CAPACITY {
        return None;
      }
      var bytes := cursor.Take(length.value);
      if bytes.None? || cursor.offset != |f.payload| {
        return None;
      }
      assert bytes.value == rest[4..];
      var text := Utf8.Validate(bytes.value, false);
      if !text {
        return None;
      }
      message := bytes.value;
    }
    r := Some(Refused(status.value, detail.value, message));
  }

  // ----- operation results --------------------------------------------------------

  ghost function With(m: multiset<nat>, d: nat): (r: multiset<nat>) {
    m + multiset{d}
  }

  lemma Swap(m: multiset<nat>, a: nat, b: nat)
    ensures With(With(m, a), b) == With(With(m, b), a)
  {
  }

  /** ksd_operation_result: descriptors are numbers, and the ghost fields record what became of each. */
  class OperationResult {
    var status: u32
    var detail: u32
    var diagnostic: seq<byte>
    var tail: Option<seq<byte>>
    var tailLength: nat
    var descriptor: Option<nat>
    ghost var given: multiset<nat>
    ghost var closed: multiset<nat>

    /** Never both a tail and a descriptor, and every descriptor ever handed over is held or closed, once. */
    ghost predicate Valid()
      reads this
    {
      && (descriptor.Some? ==> tail.None? && tailLength > 0)
      && (tail.Some? ==> |tail.value| == tailLength)
      && (tail.None? && descriptor.None? ==> tailLength == 0)
      && Accounted()
      && |diagnostic| < DIAGNOSTIC_CAPACITY && Utf8.IsText(diagnostic, false)
    }

    constructor ()
      ensures Valid() && status == INTERNAL && tail.None? && descriptor.None? && given == multiset{}
    {
      status, detail, diagnostic := INTERNAL, 0, [];
      tail, tailLength, descriptor := None, 0, None;
      given, closed := multiset{}, multiset{};
      new;
      EmptyIsText();
    }

    ghost predicate Accounted()
      reads this
    {
      given == if descriptor.Some? then With(closed, descriptor.value) else closed
    }

    method ReleaseDescriptor()
      requires Accounted()
      modifies this`descriptor, this`closed
      ensures Accounted() && descriptor.None?
    {
      if descriptor.Some? {
        closed := With(closed, descriptor.value);
      }
      descriptor := None;
    }

    /** What every answer starts with: nothing carried, and nothing said. */
    method Restart(status: u32, detail: u32)
      requires Valid()
      modifies this`status, this`detail, this`diagnostic, this`tail, this`tailLength, this`descriptor, this`closed
      ensures Valid() && tail.None? && descriptor.None? && diagnostic == []
      ensures this.status == status && this.detail == detail
    {
      hide With, Utf8.IsText, Utf8.Valid;
      ReleaseDescriptor();
      this.status, this.detail, this.diagnostic := status, detail, [];
      EmptyIsText();
      tail, tailLength := None, 0;
    }

    /** ksd_result_error. */
    method Error(status: u32, detail: u32, diagnostic: Option<seq<byte>>)
      requires Valid()
      modifies this`status, this`detail, this`diagnostic, this`tail, this`tailLength, this`descriptor, this`closed
      ensures Valid() && tail.None? && descriptor.None?
      ensures this.status == status && this.detail == detail
      ensures diagnostic.None? ==> this.diagnostic == []
      ensures diagnostic.Some? ==>
        this.diagnostic <= diagnostic.value && Longest(diagnostic.value, DIAGNOSTIC_CAPACITY - 1, |this.diagnostic|)
    {
      hide Utf8.IsText, Utf8.Valid;
      Restart(status, detail);
      if diagnostic.Some? {
        var length := Utf8.Truncate(diagnostic.value, DIAGNOSTIC_CAPACITY - 1);
        this.diagnostic := diagnostic.value[..length];
      }
    }

    /** ksd_result_take. */
    method Take(bytes: Option<seq<byte>>, length: nat) returns (ok: bool)
      requires Valid() && (bytes.Some? ==> |bytes.value| == length)
      modifies this`status, this`detail, this`diagnostic, this`tail, this`tailLength, this`descriptor, this`closed
      ensures Valid()
      ensures ok <==> (length == 0 || bytes.Some?)
      ensures ok ==> status == OK && detail == 0 && diagnostic == [] && tail == bytes && descriptor.None?
      ensures !ok ==> status == old(status) && tail == old(tail) && descriptor == old(descriptor)
    {
      hide Utf8.IsText, Utf8.Valid;
      if length != 0 && bytes.None? {
        return false;
      }
      Restart(OK, 0);
      tail, tailLength := bytes, length;
      ok := true;
    }

    method Discard(fd: nat)
      requires Accounted()
      modifies this`given, this`closed
      ensures Accounted()
      ensures given == With(old(given), fd) && closed == With(old(closed), fd)
    {
      if descriptor.Some? {
        Swap(closed, descriptor.value, fd);
      }
      given, closed := With(given, fd), With(closed, fd);
    }

    /** ksd_result_take_fd: the descriptor is consumed whether or not it is accepted. */
    method TakeDescriptor(fd: nat, length: nat) returns (ok: bool)
      requires Valid()
      modifies this
      ensures Valid()
      ensures given == With(old(given), fd)
      ensures ok <==> length != 0
      ensures ok ==> status == OK && detail == 0 && diagnostic == [] && tail.None? && descriptor == Some(fd)
      ensures !ok ==> closed == With(old(closed), fd) && descriptor == old(descriptor) && tail == old(tail)
    {
      hide With, Utf8.IsText, Utf8.Valid;
      if length == 0 {
        Discard(fd);
        return false;
      }
      Restart(OK, 0);
      given := With(given, fd);
      tailLength, descriptor := length, Some(fd);
      ok := true;
    }

    /** ksd_result_clear. */
    method Clear()
      requires Valid()
      modifies this`status, this`detail, this`diagnostic, this`tail, this`tailLength, this`descriptor, this`closed
      ensures Valid() && closed == given
      ensures status == INTERNAL && tail.None? && descriptor.None?
    {
      hide Utf8.IsText, Utf8.Valid;
      Restart(INTERNAL, 0);
    }
  }

  /**
   * An operation that fails with any text and its reply: the client receives the
   * status, the detail and the longest text that begins the diagnostic and fits.
   */
  method ReportError(request: Frame, status: u32, detail: u32, diagnostic: seq<byte>) returns (f: Frame, ghost kept: nat)
    requires request.requestId != 0 && status != OK && ValidStatus(status)
    ensures Longest(diagnostic, MESSAGE_CAPACITY - 1, kept)
    ensures Utf8.IsText(diagnostic, false) ==> kept == |diagnostic| || MESSAGE_CAPACITY - 4 <= kept
    ensures Parse(f, request.opcode, request.requestId) == Some(Refused(status, detail, diagnostic[..kept]))
  {
    hide Utf8.IsText, Utf8.Valid, MessageOf, Parse;
    var result := new OperationResult();
    result.Error(status, detail, Some(diagnostic));
    ghost var n := |result.diagnostic|;
    assert result.diagnostic == diagnostic[..n];
    var reply;
    reply, kept := Build(request, result.status, result.detail, Some(result.diagnostic), [], false);
    LongestTwice(diagnostic, DIAGNOSTIC_CAPACITY - 1, n, MESSAGE_CAPACITY - 1, kept);
    assert diagnostic[..n][..kept] == diagnostic[..kept];
    f := reply.value;
    if Utf8.IsText(diagnostic, false) {
      LongestNear(diagnostic, MESSAGE_CAPACITY - 1, kept);
    }
  }

  lemma LongestNear(data: seq<byte>, cap: nat, n: nat)
    requires Utf8.IsText(data, false) && Longest(data, cap, n)
    ensures n == |data| || cap - 3 <= n
  {
    hide Utf8.IsText, Utf8.Valid;
    Utf8.ValidIsText(data, false);
    assert data[..|data|] == data;
    var cut := if |data| < cap then |data| else cap;
    var k := Utf8.CutLosesAtMostThree(data, cut, false);
    Utf8.ValidIsText(data[..k], false);
  }
}

/**
 * The scanners and the serialiser themselves, proved against the grammar of
 * Envelope.
 *
 * Lines and words are found by loops over the bytes; a line is read word by
 * word, as the parsers do, and the answer shown to be the grammar's. The
 * serialiser appends to a bounded buffer and fails only where it must.
 */
module EnvelopeText {
  import opened Bytes
  import opened Numerals
  import opened Envelope
  import opened WireBuffer

  // ----- scanning ------------------------------------------------------------------

  /** line: the bytes up to the next newline, and the offset behind it. */
  method Line(data: seq<byte>, offset: nat) returns (r: Option<seq<byte>>, next: nat)
    requires offset <= |data|
    ensures offset <= next <= |data|
    ensures var n := Until(data[offset..], NEWLINE);
      if n == |data| - offset then r.None?
      else r == Some(data[offset..][..n]) && next == offset + n + 1
  {
    next := offset;
    while next < |data| && data[next] != NEWLINE
      invariant offset <= next <= |data|
      invariant NEWLINE !in data[offset..next]
    {
      next := next + 1;
    }
    ghost var rest := data[offset..];
    assert rest == data[offset..next] + data[next..];
    UntilEnds(data[offset..next], NEWLINE, data[next..]);
    if next == |data| {
      return None, next;
    }
    r, next := Some(data[offset..next]), next + 1;
  }

  /** token: a word, and the cursor behind the one space that ends it. */
  method Token(line: seq<byte>, cursor: nat) returns (r: Option<seq<byte>>, next: nat)
    requires cursor <= |line|
    ensures cursor <= next <= |line|
    ensures var s := line[cursor..]; r.None? <==> s == [] || s[0] == SPACE
    ensures r.None? ==> Words(line[cursor..]) == None
    ensures r.Some? ==> next > cursor && Words(line[cursor..]) == Behind(r.value, line[next..])
  {
    hide Words, Behind;
    if cursor == |line| || line[cursor] == SPACE {
      NoWord(line[cursor..]);
      return None, cursor;
    }
    next := cursor;
    while next < |line| && line[next] != SPACE
      invariant cursor <= next <= |line|
      invariant SPACE !in line[cursor..next]
    {
      next := next + 1;
    }
    ghost var rest := line[next..];
    assert line[cursor..] == line[cursor..next] + rest;
    WordsFirst(line[cursor..next], rest);
    r := Some(line[cursor..next]);
    if next < |line| {
      next := next + 1;
      assert rest[1..] == line[next..];
    }
  }

  lemma NoWord(s: seq<byte>)
    requires s == [] || s[0] == SPACE
    ensures Words(s) == None
  {
  }

  lemma WordsFirst(w: seq<byte>, rest: seq<byte>)
    requires IsWord(w) && (rest == [] || rest[0] == SPACE)
    ensures Words(w + rest) == Behind(w, if rest == [] then [] else rest[1..])
  {
    hide Until;
    FirstWord(w, rest);
    var s := w + rest;
    assert s[..|w|] == w;
    if |rest| > 1 {
      assert s[|w| + 1..] == rest[1..];
    }
  }

  /** The words of a line that begins with w and goes on with rest. */
  ghost function Behind(w: seq<byte>, rest: seq<byte>): (r: Option<seq<seq<byte>>>) {
    if rest == [] then Some([w])
    else
      var more := Words(rest);
      if more.None? then None else Some([w] + more.value)
  }

  /** The loop of hex. */
  method ReadHex(s: seq<byte>, width: nat) returns (ok: bool)
    ensures ok <==> IsHex(s, width)
  {
    if |s| != width {
      return false;
    }
    var index := 0;
    while index < |s|
      invariant 0 <= index <= |s|
      invariant forall k :: 0 <= k < index ==> IsHexDigit(s[k])
    {
      if !IsHexDigit(s[index]) {
        return false;
      }
      index := index + 1;
    }
    ok := true;
  }

  /** Two words and nothing more. */
  lemma TwoWords(line: seq<byte>, w: seq<byte>, rest: seq<byte>, v: seq<byte>, last: seq<byte>)
    requires rest != [] && Words(line) == Behind(w, rest) && Words(rest) == Behind(v, last)
    ensures last == [] ==> ParseItem(line) == Pair(w, v)
    ensures last != [] && w != K_DONE && w != K_JOB ==> ParseItem(line) == None
  {
    hide Words, Pair, Decimal, IsHex, OpcodeOf;
  }

  lemma OneWord(line: seq<byte>, w: seq<byte>, rest: seq<byte>)
    requires Words(line) == Behind(w, rest)
    ensures rest == [] ==> ParseItem(line) == if w == K_END then Some(End) else None
    ensures rest != [] && w == K_END ==> ParseItem(line) == None
    ensures rest != [] && Words(rest) == None ==> ParseItem(line) == None
  {
    hide Words, Decimal, IsHex, OpcodeOf;
  }

  lemma OddWord(line: seq<byte>, w: seq<byte>, rest: seq<byte>)
    requires Words(line) == Behind(w, rest) && ParseItem(line).Some?
    ensures w == K_GEN <==> ParseItem(line).value.Gen?
    ensures w == K_DONE <==> ParseItem(line).value.Done?
    ensures w == K_END <==> ParseItem(line).value.End?
  {
    hide Words, Decimal, IsHex, OpcodeOf;
  }

  predicate ForReport(i: Item) {
    i.End? || i.Gen? || i.Done?
  }

  predicate ForPoll(i: Item) {
    i.End? || i.Gen? || i.Lane? || i.Rtt? || i.Lost?
  }

  /** One line of a report, word by word. */
  method ReportLine(line: seq<byte>) returns (r: Option<Item>)
    ensures var i := ParseItem(line); r == if i.Some? && ForReport(i.value) then i else None
  {
    hide Words, ParseItem, IsHex, Decimal;
    assert line[0..] == line;
    var w, cursor := Token(line, 0);
    if w.None? {
      NoWords(line);
      return None;
    }
    OneWord(line, w.value, line[cursor..]);
    if ParseItem(line).Some? {
      OddWord(line, w.value, line[cursor..]);
    }
    if w.value == K_END {
      return if cursor == |line| then Some(End) else None;
    }
    if w.value == K_GEN {
      r := GenLine(line, cursor);
    } else if w.value == K_DONE {
      r := DoneLine(line, cursor);
    } else {
      return None;
    }
  }

  lemma NoWords(line: seq<byte>)
    requires Words(line) == None
    ensures ParseItem(line) == None
  {
  }

  method GenLine(line: seq<byte>, cursor: nat) returns (r: Option<Item>)
    requires cursor <= |line| && Words(line) == Behind(K_GEN, line[cursor..])
    ensures r == ParseItem(line)
  {
    hide Words, ParseItem, IsHex, Decimal;
    OneWord(line, K_GEN, line[cursor..]);
    var v, last := Token(line, cursor);
    if v.None? {
      return None;
    }
    TwoWords(line, K_GEN, line[cursor..], v.value, line[last..]);
    if last != |line| {
      return None;
    }
    var ok := ReadHex(v.value, GENERATION_HEX);
    r := if ok then Some(Gen(v.value)) else None;
  }

  lemma FourWords(line: seq<byte>, a: seq<byte>, b: seq<byte>, c: seq<byte>, last: seq<byte>,
                  r0: seq<byte>, r1: seq<byte>, r2: seq<byte>)
    requires Words(line) == Behind(K_DONE, r0) && Words(r0) == Behind(a, r1) && Words(r1) == Behind(b, r2)
    requires Words(r2) == Behind(c, last) && r0 != [] && r1 != [] && r2 != []
    ensures last != [] ==> ParseItem(line) == None
    ensures last == [] ==> Words(line) == Some([K_DONE, a, b, c])
  {
    hide Words, Decimal, IsHex, OpcodeOf, Pair;
    if last == [] {
      assert Words(r2) == Some([c]);
      assert Words(r1) == Some([b] + [c]);
      assert Words(r0) == Some([a] + ([b] + [c]));
      assert [K_DONE] + ([a] + ([b] + [c])) == [K_DONE, a, b, c];
    }
  }

  /** Too few words after done, or a word refused on the way. */
  lemma DoneRefused(line: seq<byte>, a: seq<byte>, r0: seq<byte>, r1: seq<byte>)
    requires r0 != [] && Words(line) == Behind(K_DONE, r0) && Words(r0) == Behind(a, r1)
    ensures !IsHex(a, SEQUENCE_HEX) || r1 == [] || Words(r1) == None ==> ParseItem(line) == None
  {
    hide Words, Decimal, IsHex, OpcodeOf;
  }

  lemma DoneStatus(line: seq<byte>, a: seq<byte>, b: seq<byte>, r0: seq<byte>, r1: seq<byte>, r2: seq<byte>)
    requires r0 != [] && r1 != [] && Words(line) == Behind(K_DONE, r0) && Words(r0) == Behind(a, r1)
    requires Words(r1) == Behind(b, r2)
    ensures Decimal(b, MAX_STATUS).None? || r2 == [] || Words(r2) == None ==> ParseItem(line) == None
  {
    hide Words, Decimal, IsHex, OpcodeOf;
  }

  method DoneLine(line: seq<byte>, cursor: nat) returns (r: Option<Item>)
    requires cursor <= |line| && Words(line) == Behind(K_DONE, line[cursor..])
    ensures r == ParseItem(line)
  {
    hide Words, ParseItem, IsHex, Decimal, Behind;
    DoneShort(line, line[cursor..]);
    var a, c1 := Token(line, cursor);
    if a.None? {
      return None;
    }
    DoneRefused(line, a.value, line[cursor..], line[c1..]);
    var ok := ReadHex(a.value, SEQUENCE_HEX);
    if !ok {
      return None;
    }
    var b, c2 := Token(line, c1);
    if b.None? {
      return None;
    }
    DoneStatus(line, a.value, b.value, line[cursor..], line[c1..], line[c2..]);
    var status := ParseDecimal(b.value, MAX_STATUS);
    if status.None? {
      return None;
    }
    var c, c3 := Token(line, c2);
    if c.None? {
      return None;
    }
    FourWords(line, a.value, b.value, c.value, line[c3..], line[cursor..], line[c1..], line[c2..]);
    if c3 != |line| {
      return None;
    }
    var length := ParseDecimal(c.value, MAX_TEXT_BYTES);
    DoneRead(line, a.value, b.value, c.value);
    if length.None? {
      return None;
    }
    r := Some(Done(a.value, status.value, length.value));
  }

  lemma DoneShort(line: seq<byte>, r0: seq<byte>)
    requires Words(line) == Behind(K_DONE, r0)
    ensures r0 == [] || Words(r0) == None ==> ParseItem(line) == None
  {
    hide Words;
  }

  lemma DoneRead(line: seq<byte>, a: seq<byte>, b: seq<byte>, c: seq<byte>)
    requires Words(line) == Some([K_DONE, a, b, c])
    ensures ParseItem(line) ==
      var status, length := Decimal(b, MAX_STATUS), Decimal(c, MAX_TEXT_BYTES);
      if IsHex(a, SEQUENCE_HEX) && status.Some? && length.Some?
      then Some(Done(a, status.value, length.value)) else None
  {
    hide Words, Decimal, IsHex;
  }

  /** One line of a poll, word by word. */
  method PollLine(line: seq<byte>) returns (r: Option<Item>)
    ensures var i := ParseItem(line); r == if i.Some? && ForPoll(i.value) then i else None
  {
    hide Words, ParseItem, IsHex, Decimal, Behind;
    assert line[0..] == line;
    var w, cursor := Token(line, 0);
    if w.None? {
      NoWords(line);
      return None;
    }
    var key := w.value;
    OneWord(line, key, line[cursor..]);
    if key == K_END {
      return if cursor == |line| then Some(End) else None;
    }
    if ParseItem(line).Some? {
      OddWord(line, key, line[cursor..]);
    }
    if key == K_DONE || key == K_JOB {
      if ParseItem(line).Some? {
        JobWord(line, key, line[cursor..]);
      }
      return None;
    }
    var v, last := Token(line, cursor);
    if v.None? {
      PollShort(line, key, line[cursor..]);
      return None;
    }
    TwoWords(line, key, line[cursor..], v.value, line[last..]);
    if last != |line| {
      return None;
    }
    r := PollValue(key, v.value);
  }

  lemma JobWord(line: seq<byte>, w: seq<byte>, rest: seq<byte>)
    requires Words(line) == Behind(w, rest) && ParseItem(line).Some? && (w == K_DONE || w == K_JOB)
    ensures ParseItem(line).value.Done? || ParseItem(line).value.Job?
  {
    hide Words, Decimal, IsHex, OpcodeOf;
  }

  lemma PollShort(line: seq<byte>, w: seq<byte>, rest: seq<byte>)
    requires Words(line) == Behind(w, rest) && w != K_END
    ensures rest == [] || Words(rest) == None ==> ParseItem(line) == None
  {
    hide Words;
  }

  method PollValue(key: seq<byte>, value: seq<byte>) returns (r: Option<Item>)
    ensures var i := Pair(key, value); r == if i.Some? && ForPoll(i.value) then i else None
  {
    hide IsHex, Decimal;
    if key == K_GEN {
      var ok := ReadHex(value, GENERATION_HEX);
      r := if ok then Some(Gen(value)) else None;
    } else if key == K_LANE {
      r := if value == K_FAST then Some(Lane(true)) else if value == K_SLOW then Some(Lane(false)) else None;
    } else if key == K_RTT {
      var ms := ParseDecimal(value, MAX_RTT);
      r := if ms.Some? then Some(Rtt(ms.value)) else None;
    } else if key == K_LOST {
      var count := ParseDecimal(value, MAX_LOST);
      r := if count.Some? then Some(Lost(count.value)) else None;
    } else {
      r := None;
    }
  }

  /** magic_ok. */
  method Magic(data: seq<byte>) returns (ok: bool)
    ensures ok <==> |data| >= |HEAD| && data[..|HEAD|] == HEAD
  {
    assert data[0..] == data;
    var line, next := Line(data, 0);
    ok := line == Some(K_MAGIC);
    if ok {
      assert data[..|HEAD|] == data[..|K_MAGIC|] + [data[|K_MAGIC|]];
    }
    if |data| >= |HEAD| && data[..|HEAD|] == HEAD {
      assert data == K_MAGIC + ([NEWLINE] + data[|HEAD|..]) by {
        assert data == data[..|HEAD|] + data[|HEAD|..];
      }
      LineRead(K_MAGIC, data[|HEAD|..]);
    }
  }

  /** The loop that points each entry at its body. */
  method CutBodies(entries: seq<Item>, rest: seq<byte>) returns (bodies: seq<seq<byte>>)
    requires Declared(entries) == |rest|
    ensures bodies == Slices(entries, rest)
  {
    hide Length;
    bodies := [];
    var consumed := 0;
    var index := 0;
    assert entries[..0] == [] && rest[..0] == [];
    while index < |entries|
      invariant 0 <= index <= |entries|
      invariant consumed == Declared(entries[..index]) <= |rest|
      invariant bodies == Slices(entries[..index], rest[..consumed])
    {
      var length := Length(entries[index]);
      ghost var upto := entries[..index + 1];
      assert upto[..index] == entries[..index];
      DeclaredPrefix(entries, index + 1);
      ghost var part := rest[..consumed + length];
      assert part[..consumed] == rest[..consumed] && part[consumed..] == rest[consumed..consumed + length];
      bodies := bodies + [rest[consumed..consumed + length]];
      consumed := consumed + length;
      index := index + 1;
    }
    assert entries[..index] == entries && rest[..consumed] == rest;
  }

  method ReportEnd(f: Fields, declared: nat, rest: seq<byte>) returns (r: Option<Message>)
    requires declared == Declared(f.entries)
    ensures r == Finish(Report, f, rest)
  {
    hide Declared, Slices;
    if f.entries == [] || declared != |rest| || f.gen.None? {
      return None;
    }
    var bodies := CutBodies(f.entries, rest);
    r := Some(Message(f, bodies));
  }

  /** A gen line or a done line, with the running total of the declared lengths. */
  method ReportAdd(f: Fields, declared: nat, item: Item) returns (r: Option<Fields>)
    requires declared == Declared(f.entries) && (item.Gen? || item.Done?)
    ensures r == Add(Report, f, item)
    ensures r.Some? ==> Declared(r.value.entries) == declared + Length(item)
  {
    if item.Gen? {
      return if f.gen.Some? then None else Some(f.(gen := Some(item.token)));
    }
    if |f.entries| == MAX_DONE || declared + item.length > MAX_TEXT_BYTES {
      return None;
    }
    ghost var es := f.entries + [item];
    assert es[..|es| - 1] == f.entries;
    r := Some(f.(entries := f.entries + [item]));
  }

  /** ksd_kwin_parse_report. */
  method ParseReport(data: seq<byte>) returns (r: Option<Message>)
    ensures r == Parse(Report, data)
  {
    hide ParseItem, Slices, Until, Add, Finish, Declared, Length;
    var ok := Magic(data);
    if !ok {
      return None;
    }
    var f, declared, offset := NO_FIELDS, 0, |HEAD|;
    DeclaredNone();
    while true
      invariant |HEAD| <= offset <= |data|
      invariant declared == Declared(f.entries)
      invariant Scan(Report, data[offset..], offset, f) == Parse(Report, data)
      decreases |data| - offset
    {
      var line, next := Line(data, offset);
      if line.None? || next > MAX_HEADER {
        return None;
      }
      ghost var rest := data[offset..];
      assert rest[next - offset..] == data[next..];
      var item := ReportLine(line.value);
      if item.None? {
        if ParseItem(line.value).Some? {
          NotInReport(f, ParseItem(line.value).value);
        }
        return None;
      }
      if item.value.End? {
        r := ReportEnd(f, declared, data[next..]);
        return;
      }
      var g := ReportAdd(f, declared, item.value);
      if g.None? {
        return None;
      }
      f, declared := g.value, declared + Length(item.value);
      offset := next;
    }
  }

  lemma PollShortEnough(data: seq<byte>)
    requires Parse(Poll, data).Some?
    ensures |data| <= MAX_HEADER
  {
    hide Parse;
    ParseShape(Poll, data);
    SumOfFit([], Parse(Poll, data).value.bodies);
  }

  /** Each field of a poll may be given once. */
  method PollAdd(f: Fields, item: Item) returns (r: Option<Fields>)
    requires ForPoll(item) && !item.End?
    ensures r == Add(Poll, f, item) && (r.Some? ==> r.value.entries == f.entries)
  {
    match item {
      case Gen(token) => r := if f.gen.Some? then None else Some(f.(gen := Some(token)));
      case Lane(fast) => r := if f.lane.Some? then None else Some(f.(lane := Some(fast)));
      case Rtt(ms) => r := if f.rtt.Some? then None else Some(f.(rtt := Some(ms)));
      case Lost(count) => r := if f.lost.Some? then None else Some(f.(lost := Some(count)));
    }
  }

  lemma PollEnd(f: Fields, rest: seq<byte>)
    requires f.entries == []
    ensures Finish(Poll, f, rest) == if rest == [] && Complete(Poll, f) then Some(Message(f, [])) else None
  {
  }

  lemma NotInPoll(f: Fields, i: Item)
    requires !ForPoll(i)
    ensures Add(Poll, f, i) == None
  {
  }

  /** ksd_kwin_parse_poll. */
  method ParsePoll(data: seq<byte>) returns (r: Option<Message>)
    ensures r == Parse(Poll, data)
  {
    hide ParseItem, Until, Add, Finish;
    if Parse(Poll, data).Some? {
      PollShortEnough(data);
    }
    if |data| > MAX_HEADER {
      return None;
    }
    var ok := Magic(data);
    if !ok {
      return None;
    }
    var f, offset := NO_FIELDS, |HEAD|;
    while true
      invariant |HEAD| <= offset <= |data|
      invariant f.entries == []
      invariant Scan(Poll, data[offset..], offset, f) == Parse(Poll, data)
      decreases |data| - offset
    {
      var line, next := Line(data, offset);
      if line.None? {
        return None;
      }
      ghost var rest := data[offset..];
      assert rest[next - offset..] == data[next..];
      var item := PollLine(line.value);
      if item.None? {
        if ParseItem(line.value).Some? {
          NotInPoll(f, ParseItem(line.value).value);
        }
        return None;
      }
      if item.value.End? {
        PollEnd(f, data[next..]);
        if next != |data| || !Complete(Poll, f) {
          return None;
        }
        return Some(Message(f, []));
      }
      var g := PollAdd(f, item.value);
      if g.None? {
        return None;
      }
      f := g.value;
      offset := next;
    }
  }

  lemma NotInReport(f: Fields, i: Item)
    requires !ForReport(i)
    ensures Add(Report, f, i) == None
  {
  }

  lemma DeclaredNone()
    ensures Declared([]) == 0
  {
  }

  // ----- writing ----------------------------------------------------------------------

  lemma {:induction false} HeaderAppend(lines: seq<seq<byte>>, line: seq<byte>)
    ensures Header(lines + [line]) == Header(lines) + (line + [NEWLINE])
    decreases |lines|
  {
    if lines == [] {
      assert lines + [line] == [line];
      assert Header([line][1..]) == [];
    } else {
      assert (lines + [line])[1..] == lines[1..] + [line];
      HeaderAppend(lines[1..], line);
    }
  }

  lemma {:induction false} LinesAt(items: seq<Item>, k: nat)
    requires k < |items|
    ensures Lines(items)[..k + 1] == Lines(items)[..k] + [LineOf(items[k])]
    decreases k
  {
    hide LineOf;
    if k > 0 {
      LinesAt(items[1..], k - 1);
    }
  }

  lemma {:induction false} HeaderPrefix(lines: seq<seq<byte>>, k: nat)
    requires k <= |lines|
    ensures |Header(lines[..k])| <= |Header(lines)|
    decreases |lines|
  {
    if k > 0 {
      HeaderPrefix(lines[1..], k - 1);
      assert lines[..k][1..] == lines[1..][..k - 1];
    }
  }

  lemma {:induction false} ConcatPrefix(bodies: seq<seq<byte>>, k: nat)
    requires k <= |bodies|
    ensures |Concat(bodies[..k])| <= |Concat(bodies)|
    decreases |bodies|
  {
    if k == |bodies| {
      assert bodies[..k] == bodies;
    } else {
      ConcatPrefix(bodies[..|bodies| - 1], k);
      assert bodies[..|bodies| - 1][..k] == bodies[..k];
    }
  }

  /** The words of one line as the serialiser spells them. */
  method Spelling(i: Item) returns (ws: seq<seq<byte>>)
    ensures ws == WordsOf(i)
  {
    hide Digits, Hex;
    match i {
      case End => ws := [K_END];
      case Gen(token) => ws := [K_GEN, token];
      case Lane(fast) => ws := [K_LANE, if fast then K_FAST else K_SLOW];
      case Rtt(ms) =>
        var d := FormatDecimal(ms);
        ws := [K_RTT, d];
      case Lost(count) =>
        var d := FormatDecimal(count);
        ws := [K_LOST, d];
      case Idle(ms) =>
        var d := FormatDecimal(ms);
        ws := [K_IDLE, d];
      case Done(sequence, status, length) =>
        var d := FormatDecimal(status);
        var e := FormatDecimal(length);
        ws := [K_DONE, sequence, d, e];
      case Job(sequence, opcode, budget, length) =>
        var h := FormatHex(opcode, OPCODE_HEX);
        var d := FormatDecimal(budget);
        var e := FormatDecimal(length);
        ws := [K_JOB, sequence, h, d, e];
    }
  }

  /** One line, appended word by word. */
  method AppendLine(out: Buffer, i: Item) returns (ok: bool)
    requires out.Valid()
    modifies out
    ensures out.Valid()
    ensures ok <==> |old(out.data)| + |LineOf(i)| + 1 <= out.maximum
    ensures ok ==> out.data == old(out.data) + (LineOf(i) + [NEWLINE])
  {
    hide Digits, Hex, WordsOf, Remaining;
    var ws := Spelling(i);
    var k := 0;
    ghost var base := out.data;
    RemainingAll(ws);
    while k < |ws|
      invariant 0 <= k <= |ws| && out.Valid()
      invariant base + Remaining(ws, 0) == out.data + Remaining(ws, k)
    {
      var w := ws[k] + [if k + 1 == |ws| then NEWLINE else SPACE];
      RemainingNext(ws, k);
      Associate(out.data, w, Remaining(ws, k + 1));
      ok := out.Append(w);
      if !ok {
        return;
      }
      k := k + 1;
    }
    RemainingNone(ws);
    ok := true;
  }

  lemma Associate(a: seq<byte>, b: seq<byte>, c: seq<byte>)
    ensures a + (b + c) == a + b + c
  {
  }

  /** The words from k on, as they are written. */
  ghost function Remaining(ws: seq<seq<byte>>, k: nat): (r: seq<byte>)
    requires k <= |ws|
  {
    if k == |ws| then [] else Join(ws[k..]) + [NEWLINE]
  }

  lemma RemainingAll(ws: seq<seq<byte>>)
    requires ws != []
    ensures Remaining(ws, 0) == Join(ws) + [NEWLINE]
  {
    assert ws[0..] == ws;
  }

  lemma RemainingNone(ws: seq<seq<byte>>)
    ensures Remaining(ws, |ws|) == []
  {
  }

  lemma RemainingNext(ws: seq<seq<byte>>, k: nat)
    requires k < |ws|
    ensures Remaining(ws, k) == (ws[k] + [if k + 1 == |ws| then NEWLINE else SPACE]) + Remaining(ws, k + 1)
  {
    assert ws[k..][1..] == ws[k + 1..];
  }

  /** ksd_kwin_format_poll_reply: refused for a bad name or an oversized batch, or because it does not fit. */
  method FormatPollReply(out: Buffer, token: seq<byte>, fast: bool, idle: u32, jobs: seq<Item>, bodies: seq<seq<byte>>)
    returns (ok: bool)
    requires out.Valid() && Fit(jobs, bodies) && forall j :: j in jobs ==> j.Job?
    modifies out
    ensures out.Valid()
    ensures ok <==>
      && IsHex(token, GENERATION_HEX) && |jobs| <= (if fast then FAST_CAP else SLOW_CAP)
      && (forall j :: j in jobs ==> IsHex(j.sequence, SEQUENCE_HEX))
      && |old(out.data)| + |ReplyText(token, fast, idle, jobs, bodies)| <= out.maximum
    ensures ok ==> out.data == old(out.data) + ReplyText(token, fast, idle, jobs, bodies)
  {
    hide IsHex, ReplyText, Fit;
    ok := ReadHex(token, GENERATION_HEX);
    if !ok || |jobs| > (if fast then FAST_CAP else SLOW_CAP) {
      return false;
    }
    ok := SequencesGood(jobs);
    if ok {
      ok := Write(out, token, fast, idle, jobs, bodies);
    }
  }

  method SequencesGood(jobs: seq<Item>) returns (ok: bool)
    requires forall j :: j in jobs ==> j.Job?
    ensures ok <==> forall j :: j in jobs ==> IsHex(j.sequence, SEQUENCE_HEX)
  {
    hide IsHex;
    ok := true;
    var k := 0;
    while ok && k < |jobs|
      invariant 0 <= k <= |jobs|
      invariant ok <==> forall j :: j in jobs[..k] ==> IsHex(j.sequence, SEQUENCE_HEX)
      invariant !ok ==> exists j :: j in jobs && !IsHex(j.sequence, SEQUENCE_HEX)
    {
      assert jobs[..k + 1] == jobs[..k] + [jobs[k]];
      ok := ReadHex(jobs[k].sequence, SEQUENCE_HEX);
      k := k + 1;
    }
  }

  method Write(out: Buffer, token: seq<byte>, fast: bool, idle: u32, jobs: seq<Item>, bodies: seq<seq<byte>>)
    returns (ok: bool)
    requires out.Valid()
    modifies out
    ensures out.Valid()
    ensures ok <==> |old(out.data)| + |ReplyText(token, fast, idle, jobs, bodies)| <= out.maximum
    ensures ok ==> out.data == old(out.data) + ReplyText(token, fast, idle, jobs, bodies)
  {
    hide Concat, Header, Lines, LineOf;
    ghost var base := out.data;
    var items := ReplyItems(token, fast, idle, jobs);
    ghost var text := ReplyText(token, fast, idle, jobs, bodies);
    Sections(base, items, bodies);
    ok := out.Append(HEAD);
    if !ok {
      return;
    }
    ok := WriteLines(out, items);
    if !ok {
      return;
    }
    ok := AppendLine(out, End);
    EndLine();
    if !ok {
      return;
    }
    ok := WriteBodies(out, bodies);
  }

  lemma EndLine()
    ensures LineOf(End) == K_END
  {
  }

  lemma Sections(base: seq<byte>, items: seq<Item>, bodies: seq<seq<byte>>)
    ensures base + Print(items, Concat(bodies)) ==
      base + HEAD + Header(Lines(items)) + (K_END + [NEWLINE]) + Concat(bodies)
    ensures |Print(items, Concat(bodies))| == |HEAD| + |Header(Lines(items))| + |K_END| + 1 + |Concat(bodies)|
  {
    hide Concat, Header, Lines;
    var h, b := Header(Lines(items)), Concat(bodies);
    assert K_END + ([NEWLINE] + b) == (K_END + [NEWLINE]) + b;
  }

  method WriteLines(out: Buffer, items: seq<Item>) returns (ok: bool)
    requires out.Valid()
    modifies out
    ensures out.Valid()
    ensures ok <==> |old(out.data)| + |Header(Lines(items))| <= out.maximum
    ensures ok ==> out.data == old(out.data) + Header(Lines(items))
  {
    hide LineOf, Header, Lines;
    ghost var base, lines := out.data, Lines(items);
    HeaderNone();
    assert lines[..0] == [];
    var k := 0;
    while k < |items|
      invariant 0 <= k <= |items| && out.Valid()
      invariant out.data == base + Header(lines[..k])
    {
      LinesAt(items, k);
      HeaderAppend(lines[..k], LineOf(items[k]));
      HeaderPrefix(lines, k + 1);
      ok := AppendLine(out, items[k]);
      if !ok {
        return;
      }
      k := k + 1;
    }
    assert lines[..k] == lines;
    ok := true;
  }

  lemma HeaderNone()
    ensures Header([]) == [] && Concat([]) == []
  {
  }

  method WriteBodies(out: Buffer, bodies: seq<seq<byte>>) returns (ok: bool)
    requires out.Valid()
    modifies out
    ensures out.Valid()
    ensures ok <==> |old(out.data)| + |Concat(bodies)| <= out.maximum
    ensures ok ==> out.data == old(out.data) + Concat(bodies)
  {
    hide Concat;
    ghost var base := out.data;
    HeaderNone();
    assert bodies[..0] == [];
    var k := 0;
    while k < |bodies|
      invariant 0 <= k <= |bodies| && out.Valid()
      invariant out.data == base + Concat(bodies[..k])
    {
      ConcatNext(bodies, k);
      ConcatPrefix(bodies, k + 1);
      if |bodies[k]| != 0 {
        ok := out.Append(bodies[k]);
        if !ok {
          return;
        }
      }
      k := k + 1;
    }
    assert bodies[..k] == bodies;
    ok := true;
  }

  lemma ConcatNext(bodies: seq<seq<byte>>, k: nat)
    requires k < |bodies|
    ensures Concat(bodies[..k + 1]) == Concat(bodies[..k]) + bodies[k]
  {
    assert bodies[..k + 1][..k] == bodies[..k];
  }
}

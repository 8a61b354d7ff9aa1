/** The text script and daemon exchange: lines of words, `end`, bodies; one grammar for polls, reports and replies. */
module Envelope {
  import opened Bytes
  import opened Numerals

  const SPACE: byte := 32
  const NEWLINE: byte := 10
  const GENERATION_HEX: nat := 32
  const SEQUENCE_HEX: nat := 16
  const OPCODE_HEX: nat := 4
  const MAX_HEADER: nat := 8192
  const MAX_DONE: nat := 9
  const FAST_CAP: nat := 8
  const SLOW_CAP: nat := 1

  // ----- lines and words --------------------------------------------------------

  /** The index of the first c, or the length. */
  function Until(s: seq<byte>, c: byte): (n: nat)
    ensures n <= |s| && c !in s[..n] && (n < |s| ==> s[n] == c)
  {
    if s == [] || s[0] == c then 0 else
      var n := Until(s[1..], c);
      assert s[..1 + n] == [s[0]] + s[1..][..n];
      1 + n
  }

  lemma {:induction false} UntilEnds(a: seq<byte>, c: byte, rest: seq<byte>)
    requires c !in a && (rest == [] || rest[0] == c)
    ensures Until(a + rest, c) == |a|
    decreases |a|
  {
    if a == [] {
      assert a + rest == rest;
    } else {
      assert (a + rest)[1..] == a[1..] + rest;
      UntilEnds(a[1..], c, rest);
    }
  }

  predicate IsWord(w: seq<byte>) {
    w != [] && SPACE !in w
  }

  predicate AllWords(ws: seq<seq<byte>>) {
    forall w :: w in ws ==> IsWord(w)
  }

  function Join(ws: seq<seq<byte>>): (r: seq<byte>)
    requires ws != []
  {
    if |ws| == 1 then ws[0] else ws[0] + [SPACE] + Join(ws[1..])
  }

  /** The words of a line. One space after the last word is swallowed; any other empty word is refused. */
  function Words(s: seq<byte>): (r: Option<seq<seq<byte>>>)
    ensures r.Some? ==> r.value != []
    decreases |s|
  {
    if s == [] || s[0] == SPACE then None
    else
      var n := Until(s, SPACE);
      if n + 1 >= |s| then Some([s[..n]])
      else
        var more := Words(s[n + 1..]);
        if more.None? then None else Some([s[..n]] + more.value)
  }

  predicate Spells(s: seq<byte>, ws: seq<seq<byte>>) {
    ws != [] && AllWords(ws) && (s == Join(ws) + [] || s == Join(ws) + [SPACE])
  }

  lemma FirstWord(w: seq<byte>, rest: seq<byte>)
    requires IsWord(w) && (rest == [] || rest[0] == SPACE)
    ensures (w + rest)[0] != SPACE && Until(w + rest, SPACE) == |w|
  {
    UntilEnds(w, SPACE, rest);
    assert (w + rest)[0] == w[0];
  }

  lemma JoinRest(ws: seq<seq<byte>>, t: seq<byte>)
    requires |ws| > 1 && AllWords(ws)
    ensures Join(ws) + t == ws[0] + ([SPACE] + (Join(ws[1..]) + t))
    ensures var s := Join(ws) + t; s[..|ws[0]|] == ws[0] && s[|ws[0]| + 1..] == Join(ws[1..]) + t
  {
  }

  lemma TailWords(ws: seq<seq<byte>>)
    requires ws != [] && AllWords(ws)
    ensures AllWords(ws[1..])
  {
  }

  lemma {:induction false} WordsComplete(ws: seq<seq<byte>>, t: seq<byte>)
    requires ws != [] && AllWords(ws) && (t == [] || t == [SPACE])
    ensures Words(Join(ws) + t) == Some(ws)
    decreases |ws|
  {
    hide Until;
    var w, s := ws[0], Join(ws) + t;
    assert IsWord(w);
    if |ws| == 1 {
      FirstWord(w, t);
      assert ws == [w] && s[..|w|] == w;
    } else {
      hide Join, AllWords;
      var more := ws[1..];
      TailWords(ws);
      JoinRest(ws, t);
      FirstWord(w, [SPACE] + (Join(more) + t));
      JoinNonempty(more);
      WordsComplete(more, t);
      assert ws == [w] + more;
    }
  }

  lemma JoinNonempty(ws: seq<seq<byte>>)
    requires ws != [] && AllWords(ws)
    ensures Join(ws) != []
  {
    assert ws[0] in ws;
  }

  lemma {:induction false} WordsSound(s: seq<byte>)
    requires Words(s).Some?
    ensures Spells(s, Words(s).value)
    decreases |s|
  {
    var n := Until(s, SPACE);
    var w := s[..n];
    if n + 1 >= |s| {
      assert Join([w]) == w;
      assert s == w + [] || s == w + [SPACE];
    } else {
      var tail := s[n + 1..];
      WordsSound(tail);
      var more := Words(tail).value;
      var ws := [w] + more;
      assert ws[1..] == more && AllWords(ws);
      assert s == w + ([SPACE] + tail);
      JoinRest(ws, []);
      JoinRest(ws, [SPACE]);
    }
  }

  /** A line has the words ws exactly when it is those words with single spaces, and perhaps one more space. */
  lemma WordsExact(s: seq<byte>, ws: seq<seq<byte>>)
    ensures Words(s) == Some(ws) <==> Spells(s, ws)
  {
    hide Words, Join;
    if Words(s) == Some(ws) {
      WordsSound(s);
    }
    if Spells(s, ws) {
      WordsComplete(ws, if s == Join(ws) + [] then [] else [SPACE]);
    }
  }

  // ----- what a line says -----------------------------------------------------------

  datatype Item =
    | End
    | Gen(token: seq<byte>)
    | Lane(fast: bool)
    | Rtt(ms: u32)
    | Lost(count: u32)
    | Idle(ms: u32)
    | Done(sequence: seq<byte>, status: u32, length: u32)
    | Job(sequence: seq<byte>, opcode: u16, budget: u32, length: u32)

  const K_MAGIC: seq<byte> := [75, 83, 75, 49]        // KSK1
  const K_END: seq<byte> := [101, 110, 100]           // end
  const K_GEN: seq<byte> := [103, 101, 110]           // gen
  const K_LANE: seq<byte> := [108, 97, 110, 101]      // lane
  const K_FAST: seq<byte> := [102, 97, 115, 116]      // fast
  const K_SLOW: seq<byte> := [115, 108, 111, 119]     // slow
  const K_RTT: seq<byte> := [114, 116, 116]           // rtt
  const K_LOST: seq<byte> := [108, 111, 115, 116]     // lost
  const K_IDLE: seq<byte> := [105, 100, 108, 101]     // idle
  const K_DONE: seq<byte> := [100, 111, 110, 101]     // done
  const K_JOB: seq<byte> := [106, 111, 98]            // job

  const MAX_RTT: u32 := 600000
  const MAX_LOST: u32 := 65535
  const MAX_STATUS: u32 := 255

  predicate Good(i: Item) {
    match i
    case End => true
    case Gen(token) => IsHex(token, GENERATION_HEX)
    case Lane(_) => true
    case Rtt(ms) => ms <= MAX_RTT
    case Lost(count) => count <= MAX_LOST
    case Idle(_) => true
    case Done(sequence, status, length) => IsHex(sequence, SEQUENCE_HEX) && status <= MAX_STATUS && length <= MAX_TEXT_BYTES
    case Job(sequence, _, _, _) => IsHex(sequence, SEQUENCE_HEX)
  }

  /** The words that say it. */
  function WordsOf(i: Item): (ws: seq<seq<byte>>)
    ensures 1 <= |ws| <= 5
  {
    match i
    case End => [K_END]
    case Gen(token) => [K_GEN, token]
    case Lane(fast) => [K_LANE, if fast then K_FAST else K_SLOW]
    case Rtt(ms) => [K_RTT, Digits(ms)]
    case Lost(count) => [K_LOST, Digits(count)]
    case Idle(ms) => [K_IDLE, Digits(ms)]
    case Done(sequence, status, length) => [K_DONE, sequence, Digits(status), Digits(length)]
    case Job(sequence, opcode, budget, length) =>
      [K_JOB, sequence, Hex(opcode, OPCODE_HEX), Digits(budget), Digits(length)]
  }

  function LineOf(i: Item): (r: seq<byte>) {
    Join(WordsOf(i))
  }

  function OpcodeOf(w: seq<byte>): (r: Option<u16>) {
    if IsHex(w, OPCODE_HEX) && HexValue(w) < 0x1_0000 then Some(HexValue(w)) else None
  }

  function Pair(key: seq<byte>, value: seq<byte>): (r: Option<Item>) {
    if key == K_GEN then (if IsHex(value, GENERATION_HEX) then Some(Gen(value)) else None)
    else if key == K_LANE then
      (if value == K_FAST then Some(Lane(true)) else if value == K_SLOW then Some(Lane(false)) else None)
    else if key == K_RTT then
      var v := Decimal(value, MAX_RTT);
      if v.None? then None else Some(Rtt(v.value))
    else if key == K_LOST then
      var v := Decimal(value, MAX_LOST);
      if v.None? then None else Some(Lost(v.value))
    else if key == K_IDLE then
      var v := Decimal(value, U32_MAX);
      if v.None? then None else Some(Idle(v.value))
    else None
  }

  function ItemOf(ws: seq<seq<byte>>): (r: Option<Item>) {
    if |ws| == 1 then (if ws[0] == K_END then Some(End) else None)
    else if |ws| == 2 then Pair(ws[0], ws[1])
    else if |ws| == 4 then
      var status, length := Decimal(ws[2], MAX_STATUS), Decimal(ws[3], MAX_TEXT_BYTES);
      if ws[0] == K_DONE && IsHex(ws[1], SEQUENCE_HEX) && status.Some? && length.Some?
      then Some(Done(ws[1], status.value, length.value)) else None
    else if |ws| == 5 then
      var opcode, budget, length := OpcodeOf(ws[2]), Decimal(ws[3], U32_MAX), Decimal(ws[4], U32_MAX);
      if ws[0] == K_JOB && IsHex(ws[1], SEQUENCE_HEX) && opcode.Some? && budget.Some? && length.Some?
      then Some(Job(ws[1], opcode.value, budget.value, length.value)) else None
    else None
  }

  lemma OpcodeExact(w: seq<byte>, opcode: u16)
    ensures OpcodeOf(w) == Some(opcode) <==> w == Hex(opcode, OPCODE_HEX)
  {
    assert Power16(OPCODE_HEX) == 0x1_0000;
    HexRead(opcode, OPCODE_HEX);
    if IsHex(w, OPCODE_HEX) {
      HexWritten(w);
    }
  }

  lemma PairExact(key: seq<byte>, value: seq<byte>, i: Item)
    ensures Pair(key, value) == Some(i) <==> Good(i) && WordsOf(i) == [key, value]
  {
    hide Decimal, Digits, IsHex;
    match i {
      case Rtt(ms) => DecimalExact(value, MAX_RTT, ms);
      case Lost(count) => DecimalExact(value, MAX_LOST, count);
      case Idle(ms) => DecimalExact(value, U32_MAX, ms);
      case _ =>
    }
  }

  /** Words say an item exactly when they are the item's own words and its fields are within their limits. */
  lemma ItemExact(ws: seq<seq<byte>>, i: Item)
    ensures ItemOf(ws) == Some(i) <==> Good(i) && ws == WordsOf(i)
  {
    hide Decimal, Digits, IsHex, Pair, OpcodeOf, Hex;
    if |ws| == 2 {
      PairExact(ws[0], ws[1], i);
      assert ws == [ws[0], ws[1]];
    } else if |ws| == 4 && i.Done? {
      DecimalExact(ws[2], MAX_STATUS, i.status);
      DecimalExact(ws[3], MAX_TEXT_BYTES, i.length);
    } else if |ws| == 5 && i.Job? {
      OpcodeExact(ws[2], i.opcode);
      DecimalExact(ws[3], U32_MAX, i.budget);
      DecimalExact(ws[4], U32_MAX, i.length);
    }
  }

  function ParseItem(line: seq<byte>): (r: Option<Item>) {
    var ws := Words(line);
    if ws.None? then None else ItemOf(ws.value)
  }

  predicate Says(line: seq<byte>, i: Item) {
    Good(i) && (line == LineOf(i) + [] || line == LineOf(i) + [SPACE])
  }

  predicate Clean(w: seq<byte>) {
    IsWord(w) && NEWLINE !in w
  }

  lemma DigitsClean(v: nat)
    ensures Clean(Digits(v))
  {
    DigitsValue(v);
    assert forall b :: b in Digits(v) ==> IsDigit(b);
  }

  lemma HexClean(s: seq<byte>, width: nat)
    requires IsHex(s, width) && width > 0
    ensures Clean(s)
  {
    assert forall b :: b in s ==> IsHexDigit(b);
  }

  lemma ItemClean(i: Item)
    requires Good(i)
    ensures forall w :: w in WordsOf(i) ==> Clean(w)
  {
    hide Digits, Hex, IsHex;
    match i {
      case Gen(token) => HexClean(token, GENERATION_HEX);
      case Rtt(ms) => DigitsClean(ms);
      case Lost(count) => DigitsClean(count);
      case Idle(ms) => DigitsClean(ms);
      case Done(sequence, status, length) =>
        HexClean(sequence, SEQUENCE_HEX);
        DigitsClean(status);
        DigitsClean(length);
      case Job(sequence, opcode, budget, length) =>
        assert Power16(OPCODE_HEX) == 0x1_0000;
        HexRead(opcode, OPCODE_HEX);
        HexClean(Hex(opcode, OPCODE_HEX), OPCODE_HEX);
        HexClean(sequence, SEQUENCE_HEX);
        DigitsClean(budget);
        DigitsClean(length);
      case _ =>
    }
  }

  lemma {:induction false} JoinClean(ws: seq<seq<byte>>)
    requires ws != [] && forall w :: w in ws ==> Clean(w)
    ensures NEWLINE !in Join(ws)
    decreases |ws|
  {
    assert Clean(ws[0]);
    if |ws| > 1 {
      JoinClean(ws[1..]);
    }
  }

  lemma SaysClean(line: seq<byte>, i: Item)
    requires Says(line, i)
    ensures NEWLINE !in line
  {
    hide WordsOf, Good;
    ItemClean(i);
    JoinClean(WordsOf(i));
  }

  /** A line is read as an item exactly when it is that item's line, give or take one space at its end. */
  lemma LineExact(line: seq<byte>, i: Item)
    ensures ParseItem(line) == Some(i) <==> Says(line, i)
  {
    hide Words, ItemOf, Good, WordsOf, Join;
    if Good(i) {
      ItemClean(i);
      WordsExact(line, WordsOf(i));
      ItemExact(WordsOf(i), i);
    }
    if ParseItem(line) == Some(i) {
      var ws := Words(line).value;
      ItemExact(ws, i);
      WordsExact(line, ws);
    }
  }

  // ----- whole envelopes ---------------------------------------------------------------

  datatype Kind = Poll | Report | Reply

  datatype Fields = Fields(
    gen: Option<seq<byte>>, lane: Option<bool>, rtt: Option<u32>, lost: Option<u32>, idle: Option<u32>,
    entries: seq<Item>)

  const NO_FIELDS := Fields(None, None, None, None, None, [])

  datatype Message = Message(fields: Fields, bodies: seq<seq<byte>>)

  function Length(i: Item): (n: nat) {
    match i
    case Done(_, _, length) => length
    case Job(_, _, _, length) => length
    case _ => 0
  }

  function Declared(entries: seq<Item>): (n: nat) {
    if entries == [] then 0 else Declared(entries[..|entries| - 1]) + Length(entries[|entries| - 1])
  }

  /** What one more line adds; None where the line may not appear, or not again. */
  function Add(kind: Kind, f: Fields, i: Item): (r: Option<Fields>) {
    match i
    case End => None
    case Gen(token) => if f.gen.Some? then None else Some(f.(gen := Some(token)))
    case Lane(fast) => if kind.Report? || f.lane.Some? then None else Some(f.(lane := Some(fast)))
    case Rtt(ms) => if !kind.Poll? || f.rtt.Some? then None else Some(f.(rtt := Some(ms)))
    case Lost(count) => if !kind.Poll? || f.lost.Some? then None else Some(f.(lost := Some(count)))
    case Idle(ms) => if !kind.Reply? || f.idle.Some? then None else Some(f.(idle := Some(ms)))
    case Done(_, _, length) =>
      if !kind.Report? || |f.entries| == MAX_DONE || Declared(f.entries) + length > MAX_TEXT_BYTES then None
      else Some(f.(entries := f.entries + [i]))
    case Job(_, _, _, _) =>
      if !kind.Reply? || |f.entries| == FAST_CAP then None else Some(f.(entries := f.entries + [i]))
  }

  predicate Complete(kind: Kind, f: Fields) {
    && f.gen.Some?
    && match kind
       case Poll => f.lane.Some? && f.rtt.Some? && f.lost.Some?
       case Report => f.entries != []
       case Reply => f.lane.Some? && f.idle.Some?
  }

  function Slices(entries: seq<Item>, rest: seq<byte>): (r: seq<seq<byte>>)
    requires Declared(entries) == |rest|
    decreases |entries|
  {
    if entries == [] then []
    else
      var cut := Declared(entries[..|entries| - 1]);
      Slices(entries[..|entries| - 1], rest[..cut]) + [rest[cut..]]
  }

  function Finish(kind: Kind, f: Fields, rest: seq<byte>): (r: Option<Message>) {
    if Complete(kind, f) && Declared(f.entries) == |rest| then Some(Message(f, Slices(f.entries, rest))) else None
  }

  function Scan(kind: Kind, s: seq<byte>, used: nat, f: Fields): (r: Option<Message>)
    decreases |s|
  {
    var n := Until(s, NEWLINE);
    if n == |s| || used + n + 1 > MAX_HEADER then None
    else
      var item := ParseItem(s[..n]);
      if item.None? then None
      else if item.value.End? then Finish(kind, f, s[n + 1..])
      else
        var g := Add(kind, f, item.value);
        if g.None? then None else Scan(kind, s[n + 1..], used + n + 1, g.value)
  }

  const HEAD: seq<byte> := K_MAGIC + [NEWLINE]

  /** ksd_kwin_parse_poll and ksd_kwin_parse_report. */
  function Parse(kind: Kind, data: seq<byte>): (r: Option<Message>) {
    if |data| < |HEAD| || data[..|HEAD|] != HEAD then None
    else Scan(kind, data[|HEAD|..], |HEAD|, NO_FIELDS)
  }

  // ----- what is accepted, exactly -----------------------------------------------------

  function Header(lines: seq<seq<byte>>): (r: seq<byte>) {
    if lines == [] then [] else lines[0] + ([NEWLINE] + Header(lines[1..]))
  }

  function Gather(kind: Kind, f: Fields, items: seq<Item>): (r: Option<Fields>)
    decreases |items|
  {
    if items == [] then Some(f)
    else
      var g := Add(kind, f, items[0]);
      if g.None? then None else Gather(kind, g.value, items[1..])
  }

  predicate AllSay(lines: seq<seq<byte>>, items: seq<Item>) {
    |lines| == |items| && forall k :: 0 <= k < |lines| ==> Says(lines[k], items[k]) && !items[k].End?
  }

  /** Lines that say items, a line that says end, and bodies. */
  ghost predicate Layout(kind: Kind, s: seq<byte>, used: nat, f: Fields, m: Message,
                         lines: seq<seq<byte>>, items: seq<Item>, last: seq<byte>, rest: seq<byte>)
  {
    && AllSay(lines, items) && Says(last, End)
    && s == Header(lines) + (last + ([NEWLINE] + rest))
    && used + |Header(lines)| + |last| + 1 <= MAX_HEADER
    && Gather(kind, f, items).Some? && Finish(kind, Gather(kind, f, items).value, rest) == Some(m)
  }

  lemma LineRead(line: seq<byte>, more: seq<byte>)
    requires NEWLINE !in line
    ensures var s := line + ([NEWLINE] + more);
      var n := Until(s, NEWLINE); n == |line| < |s| && s[..n] == line && s[n + 1..] == more
  {
    UntilEnds(line, NEWLINE, [NEWLINE] + more);
  }

  lemma {:induction false} ScanComplete(kind: Kind, s: seq<byte>, used: nat, f: Fields, m: Message,
                                        lines: seq<seq<byte>>, items: seq<Item>, last: seq<byte>, rest: seq<byte>)
    requires Layout(kind, s, used, f, m, lines, items, last, rest)
    ensures Scan(kind, s, used, f) == Some(m)
    decreases |lines|
  {
    hide Until, ParseItem, Says, Finish, Add, Layout, Header;
    if lines == [] {
      LayoutEnd(kind, s, used, f, m, items, last, rest);
      SaysClean(last, End);
      LineRead(last, rest);
      LineExact(last, End);
    } else {
      LayoutTail(kind, s, used, f, m, lines, items, last, rest);
      var line, i, more := lines[0], items[0], lines[1..];
      var tail := Header(more) + (last + ([NEWLINE] + rest));
      SaysClean(line, i);
      LineRead(line, tail);
      LineExact(line, i);
      ScanComplete(kind, tail, used + |line| + 1, Add(kind, f, i).value, m, more, items[1..], last, rest);
    }
  }

  lemma LayoutEnd(kind: Kind, s: seq<byte>, used: nat, f: Fields, m: Message,
                  items: seq<Item>, last: seq<byte>, rest: seq<byte>)
    requires Layout(kind, s, used, f, m, [], items, last, rest)
    ensures Says(last, End) && s == last + ([NEWLINE] + rest) && used + |last| + 1 <= MAX_HEADER
    ensures Finish(kind, f, rest) == Some(m)
  {
    hide Says, Finish, Add;
  }

  /** The layout behind the first line. */
  lemma LayoutTail(kind: Kind, s: seq<byte>, used: nat, f: Fields, m: Message,
                   lines: seq<seq<byte>>, items: seq<Item>, last: seq<byte>, rest: seq<byte>)
    requires Layout(kind, s, used, f, m, lines, items, last, rest) && lines != []
    ensures items != [] && Says(lines[0], items[0]) && !items[0].End? && Add(kind, f, items[0]).Some?
    ensures var tail := Header(lines[1..]) + (last + ([NEWLINE] + rest));
      && s == lines[0] + ([NEWLINE] + tail) && used + |lines[0]| + 1 <= MAX_HEADER
      && Layout(kind, tail, used + |lines[0]| + 1, Add(kind, f, items[0]).value, m, lines[1..], items[1..], last, rest)
  {
    hide Says, Finish, Add;
  }

  /** What one turn of the scan found. */
  lemma ScanTurn(kind: Kind, s: seq<byte>, used: nat, f: Fields)
    requires Scan(kind, s, used, f).Some?
    ensures var n := Until(s, NEWLINE);
      && n < |s| && s == s[..n] + ([NEWLINE] + s[n + 1..]) && ParseItem(s[..n]).Some?
      && var i := ParseItem(s[..n]).value;
         && (i.End? ==> used + n + 1 <= MAX_HEADER && Finish(kind, f, s[n + 1..]) == Scan(kind, s, used, f))
         && (!i.End? ==> Add(kind, f, i).Some? && Scan(kind, s[n + 1..], used + n + 1, Add(kind, f, i).value) == Scan(kind, s, used, f))
  {
    hide ParseItem, Finish, Add, Until;
  }

  lemma {:induction false} ScanSound(kind: Kind, s: seq<byte>, used: nat, f: Fields)
    returns (lines: seq<seq<byte>>, items: seq<Item>, last: seq<byte>, rest: seq<byte>)
    requires Scan(kind, s, used, f).Some?
    ensures Layout(kind, s, used, f, Scan(kind, s, used, f).value, lines, items, last, rest)
    decreases |s|
  {
    hide ParseItem, Says, Finish, Add, Layout, Until, Scan;
    ScanTurn(kind, s, used, f);
    var n := Until(s, NEWLINE);
    var line, tail, m := s[..n], s[n + 1..], Scan(kind, s, used, f).value;
    var i := ParseItem(line).value;
    LineExact(line, i);
    if i.End? {
      lines, items, last, rest := [], [], line, tail;
      LayoutLast(kind, used, f, m, line, tail);
    } else {
      var g := Add(kind, f, i).value;
      lines, items, last, rest := ScanSound(kind, tail, used + n + 1, g);
      LayoutMore(kind, tail, used, f, m, line, i, lines, items, last, rest);
      lines, items := [line] + lines, [i] + items;
    }
  }

  lemma LayoutLast(kind: Kind, used: nat, f: Fields, m: Message, last: seq<byte>, rest: seq<byte>)
    requires Says(last, End) && used + |last| + 1 <= MAX_HEADER && Finish(kind, f, rest) == Some(m)
    ensures Layout(kind, last + ([NEWLINE] + rest), used, f, m, [], [], last, rest)
  {
    hide Says, Finish;
    var s := last + ([NEWLINE] + rest);
    assert Header([]) + s == s;
  }

  lemma LayoutMore(kind: Kind, tail: seq<byte>, used: nat, f: Fields, m: Message, line: seq<byte>, i: Item,
                   lines: seq<seq<byte>>, items: seq<Item>, last: seq<byte>, rest: seq<byte>)
    requires Says(line, i) && !i.End? && Add(kind, f, i).Some?
    requires Layout(kind, tail, used + |line| + 1, Add(kind, f, i).value, m, lines, items, last, rest)
    ensures Layout(kind, line + ([NEWLINE] + tail), used, f, m, [line] + lines, [i] + items, last, rest)
  {
    hide Says, Finish, Add, Header;
    SoundStep(line, lines, last + ([NEWLINE] + rest));
    assert ([i] + items)[1..] == items;
    assert AllSay([line] + lines, [i] + items);
  }

  lemma SoundStep(line: seq<byte>, lines: seq<seq<byte>>, t: seq<byte>)
    ensures Header([line] + lines) + t == line + ([NEWLINE] + (Header(lines) + t))
    ensures |Header([line] + lines)| == |line| + 1 + |Header(lines)|
  {
    assert ([line] + lines)[1..] == lines;
  }

  /**
   * An envelope is accepted as m exactly when it is the magic line, lines that
   * say the items m gathers, in any order and with at most one space at the end
   * of each, a line that says end, and the bodies, the header within its limit.
   */
  lemma ParseExact(kind: Kind, data: seq<byte>, m: Message)
    ensures Parse(kind, data) == Some(m) <==>
      exists lines, items, last, rest ::
        |data| >= |HEAD| && data[..|HEAD|] == HEAD
        && Layout(kind, data[|HEAD|..], |HEAD|, NO_FIELDS, m, lines, items, last, rest)
  {
    hide Scan, Layout;
    if Parse(kind, data) == Some(m) {
      var lines, items, last, rest := ScanSound(kind, data[|HEAD|..], |HEAD|, NO_FIELDS);
    }
    if |data| >= |HEAD| && data[..|HEAD|] == HEAD {
      forall lines, items, last, rest | Layout(kind, data[|HEAD|..], |HEAD|, NO_FIELDS, m, lines, items, last, rest)
        ensures Parse(kind, data) == Some(m)
      {
        ScanComplete(kind, data[|HEAD|..], |HEAD|, NO_FIELDS, m, lines, items, last, rest);
      }
    }
  }

  // ----- what an accepted envelope holds --------------------------------------------------

  function Concat(bodies: seq<seq<byte>>): (r: seq<byte>) {
    if bodies == [] then [] else Concat(bodies[..|bodies| - 1]) + bodies[|bodies| - 1]
  }

  predicate Fit(entries: seq<Item>, bodies: seq<seq<byte>>) {
    |entries| == |bodies| && forall k :: 0 <= k < |entries| ==> |bodies[k]| == Length(entries[k])
  }

  lemma FitLast(entries: seq<Item>, bodies: seq<seq<byte>>, i: Item, body: seq<byte>)
    requires Fit(entries, bodies) && |body| == Length(i)
    ensures Fit(entries + [i], bodies + [body]) && Concat(bodies + [body]) == Concat(bodies) + body
  {
    hide Length;
    assert (bodies + [body])[..|bodies|] == bodies;
  }

  /** The bodies are consecutive, in order, of the declared lengths, and nothing is left over. */
  lemma {:induction false} SlicesCover(entries: seq<Item>, rest: seq<byte>)
    requires Declared(entries) == |rest|
    ensures Fit(entries, Slices(entries, rest)) && Concat(Slices(entries, rest)) == rest
    decreases |entries|
  {
    if entries != [] {
      hide Length, Fit, Concat;
      var front, last := entries[..|entries| - 1], entries[|entries| - 1];
      var cut := Declared(front);
      SlicesCover(front, rest[..cut]);
      FitLast(front, Slices(front, rest[..cut]), last, rest[cut..]);
      assert entries == front + [last];
      assert rest == rest[..cut] + rest[cut..];
    }
  }

  lemma {:induction false} ConcatSlices(entries: seq<Item>, bodies: seq<seq<byte>>)
    requires Fit(entries, bodies)
    ensures Declared(entries) == |Concat(bodies)| && Slices(entries, Concat(bodies)) == bodies
    decreases |entries|
  {
    hide Length;
    if entries != [] {
      var front, n := entries[..|entries| - 1], |bodies| - 1;
      ConcatSlices(front, bodies[..n]);
      var all := Concat(bodies);
      assert all[..Declared(front)] == Concat(bodies[..n]) && all[Declared(front)..] == bodies[n];
      assert bodies == bodies[..n] + [bodies[n]];
    }
  }

  predicate GoodEntries(kind: Kind, entries: seq<Item>) {
    && (forall k :: 0 <= k < |entries| ==> Good(entries[k]) && (if kind.Report? then entries[k].Done? else entries[k].Job?))
    && (kind.Poll? ==> entries == [])
    && (kind.Report? ==> |entries| <= MAX_DONE && Declared(entries) <= MAX_TEXT_BYTES)
    && (kind.Reply? ==> |entries| <= FAST_CAP)
  }

  lemma AddKeeps(kind: Kind, f: Fields, i: Item)
    requires GoodEntries(kind, f.entries) && Good(i) && Add(kind, f, i).Some?
    ensures GoodEntries(kind, Add(kind, f, i).value.entries)
  {
    hide Good;
    var es := f.entries + [i];
    assert es[..|es| - 1] == f.entries;
  }

  lemma {:induction false} GatherKeeps(kind: Kind, f: Fields, items: seq<Item>)
    requires GoodEntries(kind, f.entries) && Gather(kind, f, items).Some?
    requires forall k :: 0 <= k < |items| ==> Good(items[k])
    ensures GoodEntries(kind, Gather(kind, f, items).value.entries)
    decreases |items|
  {
    hide Good, GoodEntries, Add;
    if items != [] {
      AddKeeps(kind, f, items[0]);
      GatherKeeps(kind, Add(kind, f, items[0]).value, items[1..]);
    }
  }

  /** The entries are good, and their bodies are exactly the bytes behind the header. */
  lemma ParseShape(kind: Kind, data: seq<byte>)
    requires Parse(kind, data).Some?
    ensures var m := Parse(kind, data).value;
      && Complete(kind, m.fields) && GoodEntries(kind, m.fields.entries) && Fit(m.fields.entries, m.bodies)
      && |Concat(m.bodies)| <= |data| <= MAX_HEADER + |Concat(m.bodies)|
      && data[|data| - |Concat(m.bodies)|..] == Concat(m.bodies)
  {
    hide Scan, Says, GoodEntries, Complete, Fit, Slices, Concat, Header;
    var s, m := data[|HEAD|..], Parse(kind, data).value;
    var lines, items, last, rest := ScanSound(kind, s, |HEAD|, NO_FIELDS);
    NoEntries(kind);
    AllSayGood(lines, items);
    GatherKeeps(kind, NO_FIELDS, items);
    SlicesCover(m.fields.entries, rest);
    Behind(data, HEAD, Header(lines), last, rest);
  }

  lemma AllSayGood(lines: seq<seq<byte>>, items: seq<Item>)
    requires AllSay(lines, items)
    ensures forall k :: 0 <= k < |items| ==> Good(items[k])
  {
    hide Good;
    forall k | 0 <= k < |items|
      ensures Good(items[k])
    {
      assert Says(lines[k], items[k]);
    }
  }

  lemma NoEntries(kind: Kind)
    ensures GoodEntries(kind, NO_FIELDS.entries)
  {
  }

  lemma Behind(data: seq<byte>, head: seq<byte>, lines: seq<byte>, last: seq<byte>, rest: seq<byte>)
    requires |data| >= |head| && data[|head|..] == lines + (last + ([NEWLINE] + rest))
    ensures |data| == |head| + |lines| + |last| + 1 + |rest| && data[|data| - |rest|..] == rest
  {
    var s := data[|head|..];
    assert s[|s| - |rest|..] == rest;
    assert data[|data| - |rest|..] == s[|s| - |rest|..];
  }

  /** An accepted report has one to nine entries, each with a 16-digit sequence, a status and its own body. */
  lemma ReportShape(data: seq<byte>)
    requires Parse(Report, data).Some?
    ensures var m := Parse(Report, data).value;
      && m.fields.gen.Some? && 1 <= |m.fields.entries| <= MAX_DONE && |m.bodies| == |m.fields.entries|
      && (forall k :: 0 <= k < |m.bodies| ==>
            var d := m.fields.entries[k]; d.Done? && Good(d) && |m.bodies[k]| == d.length)
      && |Concat(m.bodies)| <= MAX_TEXT_BYTES
  {
    hide Parse, Good;
    ParseShape(Report, data);
    var m := Parse(Report, data).value;
    SumOfFit(m.fields.entries, m.bodies);
  }

  lemma SumOfFit(entries: seq<Item>, bodies: seq<seq<byte>>)
    requires Fit(entries, bodies)
    ensures |Concat(bodies)| == Declared(entries)
  {
    ConcatSlices(entries, bodies);
  }

  // ----- printing ----------------------------------------------------------------------

  function Lines(items: seq<Item>): (r: seq<seq<byte>>)
    ensures |r| == |items|
  {
    if items == [] then [] else [LineOf(items[0])] + Lines(items[1..])
  }

  function Print(items: seq<Item>, bodies: seq<byte>): (r: seq<byte>) {
    HEAD + (Header(Lines(items)) + (K_END + ([NEWLINE] + bodies)))
  }

  lemma {:induction false} LinesSay(items: seq<Item>)
    requires forall k :: 0 <= k < |items| ==> Good(items[k]) && !items[k].End?
    ensures AllSay(Lines(items), items)
    decreases |items|
  {
    hide Good, LineOf;
    if items != [] {
      assert Good(items[0]) && LineOf(items[0]) == LineOf(items[0]) + [];
      LinesSay(items[1..]);
    }
  }

  lemma EndSays()
    ensures Says(K_END, End)
  {
    assert LineOf(End) == K_END;
  }

  /** Whatever is printed of good items that gather into m is read back as m. */
  lemma PrintParses(kind: Kind, items: seq<Item>, bodies: seq<byte>, m: Message)
    requires forall k :: 0 <= k < |items| ==> Good(items[k]) && !items[k].End?
    requires |items| <= 16
    requires Gather(kind, NO_FIELDS, items).Some? && Finish(kind, Gather(kind, NO_FIELDS, items).value, bodies) == Some(m)
    ensures Parse(kind, Print(items, bodies)) == Some(m)
  {
    hide Gather, Finish, Good, Scan, Says;
    var data, lines := Print(items, bodies), Lines(items);
    LinesSay(items);
    HeaderShort(items);
    EndSays();
    var s := Header(lines) + (K_END + ([NEWLINE] + bodies));
    assert data[..|HEAD|] == HEAD && data[|HEAD|..] == s;
    ScanComplete(kind, s, |HEAD|, NO_FIELDS, m, lines, items, K_END, bodies);
  }

  const MAX_LINE: nat := 48

  lemma LineShort(i: Item)
    requires Good(i)
    ensures |LineOf(i)| < MAX_LINE
  {
    hide Digits, Hex, IsHexDigit;
    var ws := WordsOf(i);
    match i {
      case Rtt(ms) => TenDigits(ms);
      case Lost(count) => TenDigits(count);
      case Idle(ms) => TenDigits(ms);
      case Done(_, status, length) =>
        TenDigits(status);
        TenDigits(length);
      case Job(_, _, budget, length) =>
        TenDigits(budget);
        TenDigits(length);
      case _ =>
    }
    JoinLength(ws);
  }

  function Sizes(ws: seq<seq<byte>>): (n: nat) {
    if ws == [] then 0 else |ws[0]| + 1 + Sizes(ws[1..])
  }

  lemma {:induction false} JoinSizes(ws: seq<seq<byte>>)
    requires ws != []
    ensures |Join(ws)| + 1 == Sizes(ws)
    decreases |ws|
  {
    if |ws| > 1 {
      JoinSizes(ws[1..]);
    } else {
      assert Sizes(ws[1..]) == 0;
    }
  }

  lemma JoinLength(ws: seq<seq<byte>>)
    requires 1 <= |ws| <= 5
    ensures |ws| == 1 ==> |Join(ws)| == |ws[0]|
    ensures |ws| == 2 ==> |Join(ws)| == |ws[0]| + |ws[1]| + 1
    ensures |ws| == 4 ==> |Join(ws)| == |ws[0]| + |ws[1]| + |ws[2]| + |ws[3]| + 3
    ensures |ws| == 5 ==> |Join(ws)| == |ws[0]| + |ws[1]| + |ws[2]| + |ws[3]| + |ws[4]| + 4
  {
    JoinSizes(ws);
    if |ws| >= 2 {
      var a := ws[1..];
      if |ws| >= 4 {
        var b, c := a[1..], a[1..][1..];
        assert a[0] == ws[1] && b[0] == ws[2] && c[0] == ws[3];
        var d := c[1..];
        if |ws| == 5 {
          assert d[0] == ws[4] && Sizes(d[1..]) == 0;
        } else {
          assert Sizes(d) == 0;
        }
      } else if |ws| == 2 {
        assert Sizes(a[1..]) == 0;
      }
    } else {
      assert Sizes(ws[1..]) == 0;
    }
  }

  lemma {:induction false} HeaderShort(items: seq<Item>)
    requires forall k :: 0 <= k < |items| ==> Good(items[k])
    ensures |Header(Lines(items))| <= MAX_LINE * |items|
    decreases |items|
  {
    hide Good, LineOf;
    if items != [] {
      LineShort(items[0]);
      HeaderShort(items[1..]);
      assert Lines(items)[1..] == Lines(items[1..]);
    }
  }

  lemma AddEntry(kind: Kind, f: Fields, entries: seq<Item>)
    requires entries != [] && GoodEntries(kind, f.entries + entries)
    ensures Add(kind, f, entries[0]) == Some(f.(entries := f.entries + [entries[0]]))
  {
    hide Good;
    var i, all := entries[0], f.entries + entries;
    assert all[|f.entries|] == i;
    DeclaredPrefix(all, |f.entries| + 1);
    var next := f.entries + [i];
    assert next == all[..|f.entries| + 1] && next[..|f.entries|] == f.entries;
  }

  lemma {:induction false} GatherEntries(kind: Kind, f: Fields, entries: seq<Item>)
    requires GoodEntries(kind, f.entries + entries)
    ensures Gather(kind, f, entries) == Some(f.(entries := f.entries + entries))
    decreases |entries|
  {
    hide GoodEntries, Add;
    if entries == [] {
      assert f.entries + entries == f.entries;
    } else {
      AddEntry(kind, f, entries);
      var next := f.entries + [entries[0]];
      assert next + entries[1..] == f.entries + entries;
      GatherEntries(kind, f.(entries := next), entries[1..]);
    }
  }

  lemma {:induction false} DeclaredPrefix(entries: seq<Item>, k: nat)
    requires k <= |entries|
    ensures Declared(entries[..k]) <= Declared(entries)
    decreases |entries|
  {
    hide Length;
    if k == |entries| {
      assert entries[..k] == entries;
    } else {
      var front := entries[..|entries| - 1];
      DeclaredPrefix(front, k);
      assert front[..k] == entries[..k];
    }
  }

  lemma ReportGathers(token: seq<byte>, entries: seq<Item>)
    requires GoodEntries(Report, entries)
    ensures Gather(Report, NO_FIELDS, [Gen(token)] + entries) == Some(NO_FIELDS.(gen := Some(token), entries := entries))
  {
    hide GoodEntries;
    var f := NO_FIELDS.(gen := Some(token));
    assert ([Gen(token)] + entries)[1..] == entries && f.entries + entries == entries;
    GatherEntries(Report, f, entries);
  }

  /** Every report within the limits can be sent: its canonical form is read back whole. */
  lemma ReportRoundTrip(token: seq<byte>, entries: seq<Item>, bodies: seq<seq<byte>>)
    requires Good(Gen(token)) && entries != [] && GoodEntries(Report, entries) && Fit(entries, bodies)
    ensures Parse(Report, Print([Gen(token)] + entries, Concat(bodies)))
      == Some(Message(NO_FIELDS.(gen := Some(token), entries := entries), bodies))
  {
    hide Good, Fit, Parse, Slices, Concat, Gather, Print;
    ReportGathers(token, entries);
    ConcatSlices(entries, bodies);
    PrintParses(Report, [Gen(token)] + entries, Concat(bodies),
                Message(NO_FIELDS.(gen := Some(token), entries := entries), bodies));
  }

  lemma PollRoundTrip(token: seq<byte>, fast: bool, rtt: u32, lost: u32)
    requires Good(Gen(token)) && Good(Rtt(rtt)) && Good(Lost(lost))
    ensures Parse(Poll, Print([Gen(token), Lane(fast), Rtt(rtt), Lost(lost)], []))
      == Some(Message(Fields(Some(token), Some(fast), Some(rtt), Some(lost), None, []), []))
  {
    hide Parse, IsHex;
    var items := [Gen(token), Lane(fast), Rtt(rtt), Lost(lost)];
    var a, b, c := items[1..], items[1..][1..], items[1..][1..][1..];
    assert a == [Lane(fast), Rtt(rtt), Lost(lost)] && b == [Rtt(rtt), Lost(lost)] && c == [Lost(lost)];
    var f1 := NO_FIELDS.(gen := Some(token));
    var f2 := f1.(lane := Some(fast));
    var f3 := f2.(rtt := Some(rtt));
    assert Gather(Poll, f3, c) == Some(f3.(lost := Some(lost)));
    assert Gather(Poll, f2, b) == Gather(Poll, f3, c);
    assert Gather(Poll, f1, a) == Gather(Poll, f2, b);
    PrintParses(Poll, items, [], Message(f3.(lost := Some(lost)), []));
  }

  // ----- the poll reply -----------------------------------------------------------------

  function ReplyItems(token: seq<byte>, fast: bool, idle: u32, jobs: seq<Item>): (items: seq<Item>) {
    [Gen(token), Lane(fast), Idle(idle)] + jobs
  }

  /** ksd_kwin_format_poll_reply. */
  function ReplyText(token: seq<byte>, fast: bool, idle: u32, jobs: seq<Item>, bodies: seq<seq<byte>>): (r: seq<byte>) {
    Print(ReplyItems(token, fast, idle, jobs), Concat(bodies))
  }

  lemma ReplyGathers(token: seq<byte>, fast: bool, idle: u32, jobs: seq<Item>)
    requires GoodEntries(Reply, jobs)
    ensures Gather(Reply, NO_FIELDS, ReplyItems(token, fast, idle, jobs))
      == Some(Fields(Some(token), Some(fast), None, None, Some(idle), jobs))
  {
    hide GoodEntries;
    var items := ReplyItems(token, fast, idle, jobs);
    var a, b, c := items[1..], items[1..][1..], items[1..][1..][1..];
    assert a == [Lane(fast), Idle(idle)] + jobs && b == [Idle(idle)] + jobs && c == jobs;
    var f1 := NO_FIELDS.(gen := Some(token));
    var f2 := f1.(lane := Some(fast));
    var f3 := f2.(idle := Some(idle));
    assert f3.entries + jobs == jobs;
    GatherEntries(Reply, f3, jobs);
    assert Gather(Reply, f2, b) == Gather(Reply, f3, c);
    assert Gather(Reply, f1, a) == Gather(Reply, f2, b);
  }

  /** A reply obeys the rules the parsers enforce: read back, it gives the jobs and bodies it was made from. */
  lemma ReplyRoundTrip(token: seq<byte>, fast: bool, idle: u32, jobs: seq<Item>, bodies: seq<seq<byte>>)
    requires Good(Gen(token)) && GoodEntries(Reply, jobs) && Fit(jobs, bodies)
    ensures Parse(Reply, ReplyText(token, fast, idle, jobs, bodies))
      == Some(Message(Fields(Some(token), Some(fast), None, None, Some(idle), jobs), bodies))
  {
    hide Parse, Gather, Fit, Slices, Concat, Print;
    var items := ReplyItems(token, fast, idle, jobs);
    ReplyGathers(token, fast, idle, jobs);
    ConcatSlices(jobs, bodies);
    PrintParses(Reply, items, Concat(bodies),
                Message(Fields(Some(token), Some(fast), None, None, Some(idle), jobs), bodies));
  }

  /** A full batch of small bodies always fits a reply. */
  lemma ReplyFits(token: seq<byte>, fast: bool, idle: u32, jobs: seq<Item>, bodies: seq<seq<byte>>, small: nat)
    requires Good(Gen(token)) && GoodEntries(Reply, jobs) && Fit(jobs, bodies)
    requires forall k :: 0 <= k < |bodies| ==> |bodies[k]| <= small
    ensures |ReplyText(token, fast, idle, jobs, bodies)| <= 9 + MAX_LINE * (3 + |jobs|) + small * |bodies|
  {
    hide Good, Header, Lines, Concat, LineOf;
    var items := ReplyItems(token, fast, idle, jobs);
    assert Good(Lane(fast)) && Good(Idle(idle)) by {
      SimpleGood(fast, idle);
    }
    assert forall k :: 3 <= k < |items| ==> items[k] == jobs[k - 3];
    HeaderShort(items);
    ConcatSmall(bodies, small);
  }

  lemma SimpleGood(fast: bool, idle: u32)
    ensures Good(Lane(fast)) && Good(Idle(idle))
  {
  }

  lemma {:induction false} ConcatSmall(bodies: seq<seq<byte>>, small: nat)
    requires forall k :: 0 <= k < |bodies| ==> |bodies[k]| <= small
    ensures |Concat(bodies)| <= small * |bodies|
    decreases |bodies|
  {
    if bodies != [] {
      var n := |bodies| - 1;
      ConcatSmall(bodies[..n], small);
      assert small * (n + 1) == small * n + small;
    }
  }
}

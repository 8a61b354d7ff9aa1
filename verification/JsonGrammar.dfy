/** The texts the value scanner accepts, exactly: strings, bare words, and arrays and objects of them, up to 64 deep. */
module JsonGrammar {
  import opened Bytes
  import opened Json

  const COMMA: byte := 0x2C
  const COLON: byte := 0x3A

  /** A value with the white space inside it. A bare word is whatever stands where a number or literal may. */
  datatype Value =
    | Quotation(body: seq<byte>)
    | Word(text: seq<byte>)
    | Block(keyed: bool, lead: seq<byte>, members: Members)

  /** The members of an array or object; the key, and the space around its colon, is an object's alone. */
  datatype Members =
    | Nil
    | Member(key: seq<byte>, mid: seq<byte>, gap: seq<byte>, value: Value, after: seq<byte>, next: seq<byte>, rest: Members)

  function Close(keyed: bool): (b: byte) {
    if keyed then 0x7D else 0x5D
  }

  function Show(v: Value): (r: seq<byte>)
  {
    match v
    case Quotation(body) => [QUOTE] + body + [QUOTE]
    case Word(text) => text
    case Block(keyed, lead, members) => [if keyed then 0x7B else 0x5B] + lead + ShowRest(members, keyed)
  }

  function ShowKey(key: seq<byte>, mid: seq<byte>, gap: seq<byte>): (r: seq<byte>) {
    [QUOTE] + key + [QUOTE] + mid + [COLON] + gap
  }

  function ShowRest(ms: Members, keyed: bool): (r: seq<byte>) {
    match ms
    case Nil => [Close(keyed)]
    case Member(key, mid, gap, value, after, next, rest) =>
      (if keyed then ShowKey(key, mid, gap) else []) + Show(value) + after
      + if rest.Nil? then [Close(keyed)] else [COMMA] + next + ShowRest(rest, keyed)
  }

  predicate Spaces(s: seq<byte>) {
    forall i :: 0 <= i < |s| ==> Space(s[i])
  }

  /** No bare quote or control byte; a backslash takes the byte behind it along, whatever it is. */
  predicate Escaped(s: seq<byte>) {
    if s == [] then true
    else if s[0] == BACKSLASH then |s| >= 2 && Escaped(s[2..])
    else 0x20 <= s[0] && s[0] != QUOTE && Escaped(s[1..])
  }

  predicate Bare(s: seq<byte>) {
    s != [] && !Delimited(s[0]) && forall i :: 0 <= i < |s| ==> !EndsScalar(s[i])
  }

  predicate Good(v: Value) {
    match v
    case Quotation(body) => Escaped(body)
    case Word(text) => Bare(text)
    case Block(keyed, lead, members) => Spaces(lead) && GoodRest(members, keyed)
  }

  predicate GoodRest(ms: Members, keyed: bool) {
    match ms
    case Nil => true
    case Member(key, mid, gap, value, after, next, rest) =>
      && (keyed ==> Escaped(key) && Spaces(mid) && Spaces(gap))
      && Good(value) && Spaces(after) && Spaces(next) && GoodRest(rest, keyed)
  }

  function Max(a: nat, b: nat): (r: nat) {
    if a < b then b else a
  }

  /** How deep arrays and objects with anything in them are nested. */
  function Height(v: Value): (n: nat) {
    match v
    case Block(_, _, members) => HeightRest(members)
    case _ => 0
  }

  function HeightRest(ms: Members): (n: nat) {
    match ms
    case Nil => 0
    case Member(_, _, _, value, _, _, rest) => Max(1 + Height(value), HeightRest(rest))
  }

  // ----- what is spelled is scanned -----------------------------------------------------------

  predicate At(d: seq<byte>, pos: nat, s: seq<byte>) {
    pos + |s| <= |d| && d[pos..pos + |s|] == s
  }

  lemma AtSplit(d: seq<byte>, pos: nat, a: seq<byte>, b: seq<byte>)
    requires At(d, pos, a + b)
    ensures At(d, pos, a) && At(d, pos + |a|, b)
  {
    var s := a + b;
    assert a == s[..|a|] == d[pos..pos + |s|][..|a|] == d[pos..pos + |a|];
    assert b == s[|a|..] == d[pos..pos + |s|][|a|..] == d[pos + |a|..pos + |s|];
  }

  lemma AtByte(d: seq<byte>, pos: nat, s: seq<byte>, i: nat)
    requires At(d, pos, s) && i < |s|
    ensures d[pos + i] == s[i]
  {
    assert d[pos..pos + |s|][i] == d[pos + i];
  }

  lemma {:induction false} SkipOver(d: seq<byte>, pos: nat, s: seq<byte>)
    requires At(d, pos, s) && Spaces(s) && (pos + |s| < |d| ==> !Space(d[pos + |s|]))
    ensures Skip(d, pos) == pos + |s|
    decreases |s|
  {
    if s != [] {
      AtByte(d, pos, s, 0);
      AtSplit(d, pos, s[..1], s[1..]) by {
        assert s[..1] + s[1..] == s;
      }
      SkipOver(d, pos + 1, s[1..]);
    }
  }

  lemma {:induction false} StringOver(d: seq<byte>, pos: nat, s: seq<byte>)
    requires At(d, pos, s + [QUOTE]) && Escaped(s)
    ensures StringEnd(d, pos) == Some(pos + |s| + 1)
    decreases |s|
  {
    AtByte(d, pos, s + [QUOTE], 0);
    if s != [] {
      var n := if s[0] == BACKSLASH then 2 else 1;
      assert s[..n] + (s[n..] + [QUOTE]) == s + [QUOTE];
      AtSplit(d, pos, s[..n], s[n..] + [QUOTE]);
      StringOver(d, pos + n, s[n..]);
    }
  }

  lemma {:induction false} WordOver(d: seq<byte>, pos: nat, s: seq<byte>)
    requires At(d, pos, s) && (forall i :: 0 <= i < |s| ==> !EndsScalar(s[i]))
    requires pos + |s| < |d| ==> EndsScalar(d[pos + |s|])
    ensures ScalarEnd(d, pos) == pos + |s|
    decreases |s|
  {
    if s != [] {
      AtByte(d, pos, s, 0);
      AtSplit(d, pos, s[..1], s[1..]) by {
        assert s[..1] + s[1..] == s;
      }
      WordOver(d, pos + 1, s[1..]);
    }
  }

  /** A value starts with a byte that is neither space nor a closing bracket. */
  lemma FirstByte(v: Value)
    requires Good(v)
    ensures Show(v) != [] && !EndsScalar(Show(v)[0])
  {
    if v.Block? {
      assert Show(v)[0] == if v.keyed then 0x7B else 0x5B;
    }
  }

  lemma FirstOfRest(ms: Members, keyed: bool)
    requires GoodRest(ms, keyed)
    ensures ShowRest(ms, keyed) != [] && !Space(ShowRest(ms, keyed)[0])
    ensures ms.Member? ==> ShowRest(ms, keyed)[0] != Close(keyed)
  {
    if ms.Member? {
      FirstByte(ms.value);
      var front := if keyed then ShowKey(ms.key, ms.mid, ms.gap) else [];
      assert ShowRest(ms, keyed)[0] == if keyed then QUOTE else Show(ms.value)[0];
    }
  }

  /** A word must end where it is read. */
  predicate Ends(d: seq<byte>, v: Value, end: nat) {
    v.Word? && end < |d| ==> EndsScalar(d[end])
  }

  lemma AtNone(d: seq<byte>, pos: nat)
    requires pos <= |d|
    ensures At(d, pos, []) && Spaces([])
  {
  }

  /** How the scanner takes each kind of value, from its first byte. */
  lemma SpanCases(d: seq<byte>, pos: nat, depth: nat)
    requires pos <= |d| && Skip(d, pos) < |d| && depth <= MAX_DEPTH
    ensures var p := Skip(d, pos);
      && (d[p] == QUOTE ==>
            Span(d, pos, depth) == if StringEnd(d, p + 1).None? then None else Some(Extent(p, StringEnd(d, p + 1).value)))
      && (d[p] == 0x7B || d[p] == 0x5B ==>
            var e := Items(d, Skip(d, p + 1), depth, d[p] == 0x7B);
            Span(d, pos, depth) == if e.None? then None else Some(Extent(p, e.value)))
      && (!Delimited(d[p]) ==>
            Span(d, pos, depth) == if ScalarEnd(d, p) == p then None else Some(Extent(p, ScalarEnd(d, p))))
  {
    hide Items, Skip, StringEnd, ScalarEnd;
  }

  lemma QuotationSpan(d: seq<byte>, pos: nat, p: nat, body: seq<byte>, depth: nat)
    requires pos <= p && At(d, p, [QUOTE] + body + [QUOTE]) && Escaped(body) && depth <= MAX_DEPTH && Skip(d, pos) == p
    ensures Span(d, pos, depth) == Some(Extent(p, p + |body| + 2))
  {
    hide At, Escaped, StringEnd, Skip, Span, ScalarEnd, Items;
    var s := [QUOTE] + body + [QUOTE];
    assert s == [QUOTE] + (body + [QUOTE]);
    InBounds(d, p, s);
    AtByte(d, p, s, 0);
    AtSplit(d, p, [QUOTE], body + [QUOTE]);
    StringOver(d, p + 1, body);
    SpanCases(d, pos, depth);
  }

  lemma InBounds(d: seq<byte>, pos: nat, s: seq<byte>)
    requires At(d, pos, s)
    ensures pos + |s| <= |d|
  {
  }

  lemma WordSpan(d: seq<byte>, pos: nat, p: nat, text: seq<byte>, depth: nat)
    requires pos <= p && At(d, p, text) && Bare(text) && depth <= MAX_DEPTH && Skip(d, pos) == p
    requires p + |text| < |d| ==> EndsScalar(d[p + |text|])
    ensures Span(d, pos, depth) == Some(Extent(p, p + |text|))
  {
    hide At, StringEnd, Skip, Span, ScalarEnd, Items;
    InBounds(d, p, text);
    AtByte(d, p, text, 0);
    WordOver(d, p, text);
    SpanCases(d, pos, depth);
  }

  lemma BlockSpan(d: seq<byte>, pos: nat, p: nat, keyed: bool, q: nat, e: nat, depth: nat)
    requires pos <= p < |d| && p < q <= |d| && d[p] == (if keyed then 0x7B else 0x5B) && depth <= MAX_DEPTH
    requires Skip(d, pos) == p && Skip(d, p + 1) == q && Items(d, q, depth, keyed) == Some(e)
    ensures Span(d, pos, depth) == Some(Extent(p, e))
  {
    hide StringEnd, Skip, Span, ScalarEnd, Items;
    SpanCases(d, pos, depth);
  }

  lemma BlockShown(keyed: bool, lead: seq<byte>, members: Members)
    ensures Show(Block(keyed, lead, members)) == [if keyed then 0x7B else 0x5B] + (lead + ShowRest(members, keyed))
  {
    hide ShowRest;
  }

  lemma {:induction false} ShownSpan(d: seq<byte>, pos: nat, before: seq<byte>, v: Value, depth: nat)
    requires Good(v) && Spaces(before) && At(d, pos, before + Show(v)) && depth + Height(v) <= MAX_DEPTH
    requires Ends(d, v, pos + |before| + |Show(v)|)
    ensures Span(d, pos, depth) == Some(Extent(pos + |before|, pos + |before| + |Show(v)|))
    decreases v, 1
  {
    hide At, Escaped, Spaces, StringEnd, Skip, Span, ScalarEnd, Items, ShowRest, GoodRest, HeightRest, Bare;
    var p, s := pos + |before|, Show(v);
    AtSplit(d, pos, before, s);
    InBounds(d, p, s);
    FirstByte(v);
    AtByte(d, p, s, 0);
    SkipOver(d, pos, before);
    match v {
      case Quotation(body) => QuotationSpan(d, pos, p, body, depth);
      case Word(text) => WordSpan(d, pos, p, text, depth);
      case Block(keyed, lead, members) =>
        BlockShown(keyed, lead, members);
        ShownBlock(d, pos, p, keyed, lead, members, depth);
    }
  }

  lemma {:induction false} ShownBlock(d: seq<byte>, pos: nat, p: nat, keyed: bool, lead: seq<byte>, members: Members, depth: nat)
    requires pos <= p < |d| && Skip(d, pos) == p && Spaces(lead) && GoodRest(members, keyed) && depth + HeightRest(members) <= MAX_DEPTH
    requires At(d, p, [if keyed then 0x7B else 0x5B] + (lead + ShowRest(members, keyed)))
    ensures Span(d, pos, depth) == Some(Extent(p, p + 1 + |lead| + |ShowRest(members, keyed)|))
    decreases members, 2
  {
    hide At, Spaces, Skip, Span, Items, ShowRest, GoodRest, HeightRest;
    var rest := ShowRest(members, keyed);
    var open := [if keyed then 0x7B else 0x5B];
    InBounds(d, p, open + (lead + rest));
    AtByte(d, p, open + (lead + rest), 0);
    AtSplit(d, p, open, lead + rest);
    AtSplit(d, p + 1, lead, rest);
    FirstOfRest(members, keyed);
    AtByte(d, p + 1 + |lead|, rest, 0);
    SkipOver(d, p + 1, lead);
    ShownItems(d, p + 1 + |lead|, members, depth, keyed);
    BlockSpan(d, pos, p, keyed, p + 1 + |lead|, p + 1 + |lead| + |rest|, depth);
  }

  function Front(ms: Members, keyed: bool): (r: seq<byte>)
    requires ms.Member?
  {
    if keyed then ShowKey(ms.key, ms.mid, ms.gap) else []
  }

  /** What follows a member's value and the space behind it. */
  function Behind(ms: Members, keyed: bool): (r: seq<byte>)
    requires ms.Member?
  {
    if ms.rest.Nil? then [Close(keyed)] else [COMMA] + (ms.next + ShowRest(ms.rest, keyed))
  }

  lemma RestShown(ms: Members, keyed: bool)
    requires ms.Member?
    ensures ShowRest(ms, keyed) == (Front(ms, keyed) + Show(ms.value)) + (ms.after + Behind(ms, keyed))
  {
    hide Show, ShowKey;
    Regrouped(Front(ms, keyed), Show(ms.value), ms.after, Behind(ms, keyed));
    if ms.rest.Member? {
      Regrouped([COMMA], [], ms.next, ShowRest(ms.rest, keyed));
      assert [COMMA] + [] == [COMMA];
    }
  }

  lemma Regrouped(a: seq<byte>, b: seq<byte>, c: seq<byte>, d: seq<byte>)
    ensures a + b + c + d == (a + b) + (c + d)
  {
  }

  lemma TailShown(ms: Members, keyed: bool)
    requires ms.Member?
    ensures Behind(ms, keyed) != []
    ensures Behind(ms, keyed)[0] == if ms.rest.Nil? then Close(keyed) else COMMA
    ensures EndsScalar(Behind(ms, keyed)[0]) && !Space(Behind(ms, keyed)[0])
    ensures ms.rest.Nil? ==> |Behind(ms, keyed)| == 1
    ensures ms.rest.Member? ==> Behind(ms, keyed) == [COMMA] + (ms.next + ShowRest(ms.rest, keyed))
  {
    hide ShowRest;
  }

  /** One turn of the scanner's loop, when the item and the separator behind it are known. */
  lemma ItemsTurn(d: seq<byte>, pos: nat, depth: nat, keyed: bool, e: nat, s: nat)
    requires pos < |d| && d[pos] != Close(keyed) && Item(d, pos, depth, keyed) == Some(e) && e <= |d| && Skip(d, e) == s < |d|
    ensures d[s] == Close(keyed) ==> Items(d, pos, depth, keyed) == Some(s + 1)
    ensures d[s] == COMMA && Skip(d, s + 1) < |d| && d[Skip(d, s + 1)] != Close(keyed) ==>
      Items(d, pos, depth, keyed) == Items(d, Skip(d, s + 1), depth, keyed)
  {
    hide Item, Skip;
  }

  lemma ItemsNone(d: seq<byte>, pos: nat, depth: nat, keyed: bool)
    requires pos < |d| && d[pos] == Close(keyed)
    ensures Items(d, pos, depth, keyed) == Some(pos + 1)
  {
    hide Item, Skip;
  }

  lemma NoMembers(keyed: bool)
    ensures ShowRest(Nil, keyed) == [Close(keyed)]
  {
  }

  lemma MemberParts(ms: Members, keyed: bool)
    requires ms.Member?
    ensures GoodRest(ms, keyed) ==> Spaces(ms.after) && Spaces(ms.next) && GoodRest(ms.rest, keyed)
    ensures HeightRest(ms.rest) <= HeightRest(ms)
  {
    hide Good, Spaces, Escaped;
  }

  lemma SpaceEnds(s: seq<byte>)
    requires Spaces(s) && s != []
    ensures EndsScalar(s[0])
  {
  }

  /** Behind a comma the scanner stands at the next member. */
  lemma CommaPassed(d: seq<byte>, s: nat, ms: Members, keyed: bool)
    requires ms.Member? && ms.rest.Member? && Spaces(ms.next) && GoodRest(ms.rest, keyed) && At(d, s, Behind(ms, keyed))
    ensures s < |d| && Skip(d, s + 1) == s + 1 + |ms.next| < |d| && d[s + 1 + |ms.next|] != Close(keyed)
    ensures At(d, s + 1 + |ms.next|, ShowRest(ms.rest, keyed))
  {
    hide Skip, At, Spaces, ShowRest, GoodRest, Behind, EndsScalar, Space;
    TailShown(ms, keyed);
    var more := ShowRest(ms.rest, keyed);
    InBounds(d, s, Behind(ms, keyed));
    AtSplit(d, s, [COMMA], ms.next + more);
    AtSplit(d, s + 1, ms.next, more);
    FirstOfRest(ms.rest, keyed);
    InBounds(d, s + 1 + |ms.next|, more);
    AtByte(d, s + 1 + |ms.next|, more, 0);
    SkipOver(d, s + 1, ms.next);
  }

  /** A member's value ends where it should, and the space behind it leads to a comma or the close. */
  lemma ValuePassed(d: seq<byte>, e: nat, ms: Members, keyed: bool)
    requires ms.Member? && Spaces(ms.after) && At(d, e, ms.after + Behind(ms, keyed))
    ensures e < |d| && EndsScalar(d[e]) && Skip(d, e) == e + |ms.after| < |d|
    ensures At(d, e + |ms.after|, Behind(ms, keyed)) && d[e + |ms.after|] == if ms.rest.Nil? then Close(keyed) else COMMA
  {
    hide Skip, At, Spaces, Behind, EndsScalar, Space;
    var tail := Behind(ms, keyed);
    TailShown(ms, keyed);
    AtSplit(d, e, ms.after, tail);
    var s := e + |ms.after|;
    InBounds(d, s, tail);
    AtByte(d, s, tail, 0);
    if ms.after != [] {
      AtByte(d, e, ms.after, 0);
      SpaceEnds(ms.after);
    }
    SkipOver(d, e, ms.after);
  }

  lemma {:induction false} ShownItems(d: seq<byte>, pos: nat, ms: Members, depth: nat, keyed: bool)
    requires GoodRest(ms, keyed) && At(d, pos, ShowRest(ms, keyed)) && depth + HeightRest(ms) <= MAX_DEPTH
    ensures Items(d, pos, depth, keyed) == Some(pos + |ShowRest(ms, keyed)|)
    decreases ms, 1
  {
    hide Item, Items, Skip, Span, At, Spaces, ShowRest, Show, GoodRest, HeightRest, Front, Behind, EndsScalar, Space;
    var shown := ShowRest(ms, keyed);
    FirstOfRest(ms, keyed);
    InBounds(d, pos, shown);
    AtByte(d, pos, shown, 0);
    if ms.Nil? {
      NoMembers(keyed);
      ItemsNone(d, pos, depth, keyed);
    } else {
      var item, tail := Front(ms, keyed) + Show(ms.value), Behind(ms, keyed);
      RestShown(ms, keyed);
      MemberParts(ms, keyed);
      AtSplit(d, pos, item, ms.after + tail);
      var e := pos + |item|;
      var s := e + |ms.after|;
      ValuePassed(d, e, ms, keyed);
      ShownItem(d, pos, ms, depth, keyed);
      ItemsTurn(d, pos, depth, keyed, e, s);
      TailShown(ms, keyed);
      if ms.rest.Member? {
        CommaPassed(d, s, ms, keyed);
        ShownItems(d, s + 1 + |ms.next|, ms.rest, depth, keyed);
      }
    }
  }

  lemma ValueParts(ms: Members, keyed: bool)
    requires ms.Member?
    ensures GoodRest(ms, keyed) ==> Good(ms.value) && (keyed ==> Escaped(ms.key) && Spaces(ms.mid) && Spaces(ms.gap))
    ensures 1 + Height(ms.value) <= HeightRest(ms)
  {
    hide Good, Spaces, Escaped;
  }

  /** A key, a colon and a value, when the spans of both and the space between are known. */
  lemma KeyedItem(d: seq<byte>, pos: nat, depth: nat, q: nat, c: nat, start: nat, e: nat)
    requires pos < |d| && d[pos] == QUOTE && Span(d, pos, depth + 1) == Some(Extent(pos, q))
    requires q <= |d| && Skip(d, q) == c < |d| && d[c] == COLON && Span(d, c + 1, depth + 1) == Some(Extent(start, e))
    ensures Item(d, pos, depth, true) == Some(e)
  {
    hide Span, Skip;
  }

  lemma BareItem(d: seq<byte>, pos: nat, depth: nat, start: nat, e: nat)
    requires pos <= |d| && Span(d, pos, depth + 1) == Some(Extent(start, e))
    ensures Item(d, pos, depth, false) == Some(e)
  {
    hide Span, Skip;
  }

  /** The scanner through a key to the byte behind its colon. */
  lemma KeyShown(d: seq<byte>, pos: nat, key: seq<byte>, mid: seq<byte>, rest: seq<byte>, depth: nat)
    requires At(d, pos, ([QUOTE] + key + [QUOTE]) + (mid + ([COLON] + rest))) && Escaped(key) && Spaces(mid) && depth <= MAX_DEPTH
    ensures var q := pos + |key| + 2; var c := q + |mid|;
      && pos < q <= c < |d| && d[pos] == QUOTE && Span(d, pos, depth) == Some(Extent(pos, q))
      && Skip(d, q) == c && d[c] == COLON && At(d, c + 1, rest)
  {
    hide Skip, Span, At, Spaces, Escaped;
    var quoted := [QUOTE] + key + [QUOTE];
    var q, c := pos + |quoted|, pos + |quoted| + |mid|;
    InBounds(d, pos, quoted + (mid + ([COLON] + rest)));
    AtSplit(d, pos, quoted, mid + ([COLON] + rest));
    AtSplit(d, q, mid, [COLON] + rest);
    AtSplit(d, c, [COLON], rest);
    AtByte(d, c, [COLON], 0);
    AtByte(d, pos, quoted, 0);
    AtNone(d, pos);
    SkipOver(d, pos, []);
    QuotationSpan(d, pos, pos, key, depth);
    SkipOver(d, q, mid);
  }

  lemma KeyRegrouped(key: seq<byte>, mid: seq<byte>, gap: seq<byte>, value: seq<byte>)
    ensures ShowKey(key, mid, gap) + value == ([QUOTE] + key + [QUOTE]) + (mid + ([COLON] + (gap + value)))
  {
  }

  lemma {:induction false} ShownItem(d: seq<byte>, pos: nat, ms: Members, depth: nat, keyed: bool)
    requires ms.Member? && GoodRest(ms, keyed) && depth + HeightRest(ms) <= MAX_DEPTH
    requires var e := pos + |Front(ms, keyed) + Show(ms.value)|;
      At(d, pos, Front(ms, keyed) + Show(ms.value)) && e < |d| && EndsScalar(d[e])
    ensures Item(d, pos, depth, keyed) == Some(pos + |Front(ms, keyed) + Show(ms.value)|)
    decreases ms, 0
  {
    hide Item, Skip, Span, At, Spaces, Show, ShowKey, Good, GoodRest, Height, HeightRest, Escaped, EndsScalar;
    ValueParts(ms, keyed);
    var value := Show(ms.value);
    InBounds(d, pos, Front(ms, keyed) + value);
    if !keyed {
      AtNone(d, pos);
      assert [] + value == value;
      ShownSpan(d, pos, [], ms.value, depth + 1);
      BareItem(d, pos, depth, pos, pos + |value|);
    } else {
      KeyRegrouped(ms.key, ms.mid, ms.gap, value);
      KeyShown(d, pos, ms.key, ms.mid, ms.gap + value, depth + 1);
      var q, c := pos + |ms.key| + 2, pos + |ms.key| + 2 + |ms.mid|;
      ShownSpan(d, c + 1, ms.gap, ms.value, depth + 1);
      KeyedItem(d, pos, depth, q, c, c + 1 + |ms.gap|, c + 1 + |ms.gap| + |value|);
    }
  }

  // ----- what is scanned is spelled ------------------------------------------------------------

  lemma AtJoin(d: seq<byte>, pos: nat, a: seq<byte>, b: seq<byte>)
    requires At(d, pos, a) && At(d, pos + |a|, b)
    ensures At(d, pos, a + b)
  {
    assert d[pos..pos + |a + b|] == d[pos..pos + |a|] + d[pos + |a|..pos + |a| + |b|];
  }

  lemma AtSlice(d: seq<byte>, pos: nat, end: nat)
    requires pos <= end <= |d|
    ensures At(d, pos, d[pos..end])
  {
  }

  lemma AtOne(d: seq<byte>, pos: nat)
    requires pos < |d|
    ensures At(d, pos, [d[pos]])
  {
  }

  lemma {:induction false} Skipped(d: seq<byte>, pos: nat)
    requires pos <= |d|
    ensures Spaces(d[pos..Skip(d, pos)]) && (Skip(d, pos) < |d| ==> !Space(d[Skip(d, pos)]))
    decreases |d| - pos
  {
    if pos < |d| && Space(d[pos]) {
      Skipped(d, pos + 1);
      assert d[pos..Skip(d, pos)] == [d[pos]] + d[pos + 1..Skip(d, pos)];
    }
  }

  lemma {:induction false} StringRead(d: seq<byte>, pos: nat)
    requires pos <= |d| && StringEnd(d, pos).Some?
    ensures var e := StringEnd(d, pos).value; Escaped(d[pos..e - 1]) && d[e - 1] == QUOTE
    decreases |d| - pos
  {
    if d[pos] != QUOTE {
      var n := if d[pos] == BACKSLASH then 2 else 1;
      var e := StringEnd(d, pos).value;
      StringRead(d, pos + n);
      assert d[pos..e - 1][n..] == d[pos + n..e - 1];
    }
  }

  lemma {:induction false} WordRead(d: seq<byte>, pos: nat)
    requires pos <= |d|
    ensures var e := ScalarEnd(d, pos); (forall i :: pos <= i < e ==> !EndsScalar(d[i])) && (e < |d| ==> EndsScalar(d[e]))
    decreases |d| - pos
  {
    if pos < |d| && !EndsScalar(d[pos]) {
      WordRead(d, pos + 1);
    }
  }

  /** A value scanned at pos: the space before it, its text, and how deep it goes. */
  predicate Scanned(d: seq<byte>, pos: nat, depth: nat, x: Extent, v: Value) {
    && pos <= x.start <= x.end <= |d| && Spaces(d[pos..x.start]) && Good(v)
    && At(d, x.start, Show(v)) && x.end == x.start + |Show(v)|
    && depth + Height(v) <= MAX_DEPTH && Ends(d, v, x.end)
  }

  lemma QuotationRead(d: seq<byte>, pos: nat, depth: nat) returns (v: Value)
    requires pos <= |d| && Skip(d, pos) < |d| && d[Skip(d, pos)] == QUOTE && Span(d, pos, depth).Some? && depth <= MAX_DEPTH
    ensures v.Quotation? && Scanned(d, pos, depth, Span(d, pos, depth).value, v)
  {
    hide StringEnd, Skip, Span, ScalarEnd, Items, Escaped, At, Spaces;
    var p := Skip(d, pos);
    SpanCases(d, pos, depth);
    Skipped(d, pos);
    StringRead(d, p + 1);
    var e := StringEnd(d, p + 1).value;
    v := Quotation(d[p + 1..e - 1]);
    AtSlice(d, p, e);
    assert d[p..e] == [QUOTE] + d[p + 1..e - 1] + [QUOTE];
  }

  lemma WordIsRead(d: seq<byte>, pos: nat, depth: nat) returns (v: Value)
    requires pos <= |d| && Skip(d, pos) < |d| && !Delimited(d[Skip(d, pos)]) && Span(d, pos, depth).Some? && depth <= MAX_DEPTH
    ensures Scanned(d, pos, depth, Span(d, pos, depth).value, v)
  {
    hide StringEnd, Skip, Span, ScalarEnd, Items, At, Spaces;
    var p := Skip(d, pos);
    SpanCases(d, pos, depth);
    Skipped(d, pos);
    WordRead(d, p);
    var e := ScalarEnd(d, p);
    v := Word(d[p..e]);
    AtSlice(d, p, e);
  }

  lemma DeepFails(d: seq<byte>, pos: nat, depth: nat)
    requires pos <= |d| && Span(d, pos, depth).Some?
    ensures depth <= MAX_DEPTH && Skip(d, pos) < |d|
  {
    hide StringEnd, Skip, ScalarEnd, Items;
  }

  /** Whatever is scanned is the text of some value. */
  lemma {:induction false} SpanRead(d: seq<byte>, pos: nat, depth: nat) returns (v: Value)
    requires pos <= |d| && Span(d, pos, depth).Some?
    ensures Scanned(d, pos, depth, Span(d, pos, depth).value, v)
    ensures v.Quotation? <==> d[Span(d, pos, depth).value.start] == QUOTE
    decreases |d| - pos, 0
  {
    hide StringEnd, Skip, Span, ScalarEnd, Items, At, Spaces, Show, Good, Escaped, Bare;
    DeepFails(d, pos, depth);
    var p := Skip(d, pos);
    SpanCases(d, pos, depth);
    if d[p] == QUOTE {
      v := QuotationRead(d, pos, depth);
    } else if Delimited(d[p]) {
      v := BlockRead(d, pos, depth);
    } else {
      v := WordIsRead(d, pos, depth);
      NotQuoted(d, pos, depth, v);
    }
  }

  /** A value whose first byte is no quote is no string. */
  lemma NotQuoted(d: seq<byte>, pos: nat, depth: nat, v: Value)
    requires pos <= |d| && Span(d, pos, depth).Some? && Scanned(d, pos, depth, Span(d, pos, depth).value, v)
    requires d[Span(d, pos, depth).value.start] != QUOTE
    ensures !v.Quotation?
  {
    hide Span, Spaces, At, Good;
    if v.Quotation? {
      AtByte(d, Span(d, pos, depth).value.start, Show(v), 0);
    }
  }

  lemma {:induction false} BlockRead(d: seq<byte>, pos: nat, depth: nat) returns (v: Value)
    requires pos <= |d| && Skip(d, pos) < |d| && depth <= MAX_DEPTH && Span(d, pos, depth).Some?
    requires d[Skip(d, pos)] == 0x7B || d[Skip(d, pos)] == 0x5B
    ensures v.Block? && Scanned(d, pos, depth, Span(d, pos, depth).value, v)
    decreases |d| - pos, 0, 0
  {
    hide StringEnd, Skip, Span, ScalarEnd, Items, At, Spaces, ShowRest, GoodRest, HeightRest;
    var p := Skip(d, pos);
    SpanCases(d, pos, depth);
    var keyed := d[p] == 0x7B;
    var q := Skip(d, p + 1);
    Skipped(d, pos);
    Skipped(d, p + 1);
    var ms := ItemsRead(d, q, depth, keyed);
    var lead := d[p + 1..q];
    v := Block(keyed, lead, ms);
    AtSlice(d, p + 1, q);
    AtJoin(d, p + 1, lead, ShowRest(ms, keyed));
    AtOne(d, p);
    AtJoin(d, p, [d[p]], lead + ShowRest(ms, keyed));
    BlockShown(keyed, lead, ms);
    InBounds(d, p, Show(v));
  }

  /** What the scanner's loop did in one turn. */
  lemma ItemsDid(d: seq<byte>, pos: nat, depth: nat, keyed: bool)
    requires pos <= |d| && Items(d, pos, depth, keyed).Some?
    ensures pos < |d|
    ensures d[pos] == Close(keyed) ==> Items(d, pos, depth, keyed) == Some(pos + 1)
    ensures d[pos] != Close(keyed) ==>
      && Item(d, pos, depth, keyed).Some?
      && var s := Skip(d, Item(d, pos, depth, keyed).value);
         && s < |d| && (d[s] == Close(keyed) || d[s] == COMMA)
         && (d[s] == Close(keyed) ==> Items(d, pos, depth, keyed) == Some(s + 1))
         && (d[s] == COMMA ==>
               var t := Skip(d, s + 1);
               t < |d| && d[t] != Close(keyed) && Items(d, pos, depth, keyed) == Items(d, t, depth, keyed))
  {
    hide Item, Skip;
  }

  lemma {:induction false} ItemsRead(d: seq<byte>, pos: nat, depth: nat, keyed: bool) returns (ms: Members)
    requires pos <= |d| && depth <= MAX_DEPTH && Items(d, pos, depth, keyed).Some? && (pos < |d| ==> !Space(d[pos]))
    ensures GoodRest(ms, keyed) && At(d, pos, ShowRest(ms, keyed)) && depth + HeightRest(ms) <= MAX_DEPTH
    ensures Items(d, pos, depth, keyed) == Some(pos + |ShowRest(ms, keyed)|)
    decreases |d| - pos, 2
  {
    hide Item, Items, Skip, Span, At, Spaces, Space, ShowRest, GoodRest, HeightRest, HeadRead, Behind, Front;
    ItemsDid(d, pos, depth, keyed);
    if d[pos] == Close(keyed) {
      ms := Nil;
      AtOne(d, pos);
      NoMembers(keyed);
      NilGood(keyed);
    } else {
      var item := ItemRead(d, pos, depth, keyed);
      var e := Item(d, pos, depth, keyed).value;
      var s := Skip(d, e);
      Skipped(d, e);
      AtSlice(d, e, s);
      AtOne(d, s);
      if d[s] == Close(keyed) {
        NoSpaces();
        NilGood(keyed);
        ms := MemberRead(d, pos, depth, keyed, e, s, item, [], Nil);
      } else {
        var t := Skip(d, s + 1);
        Skipped(d, s + 1);
        AtSlice(d, s + 1, t);
        var rest := ItemsRead(d, t, depth, keyed);
        NotClosed(d, t, rest, keyed);
        AtJoin(d, s + 1, d[s + 1..t], ShowRest(rest, keyed));
        AtJoin(d, s, [COMMA], d[s + 1..t] + ShowRest(rest, keyed));
        ms := MemberRead(d, pos, depth, keyed, e, s, item, d[s + 1..t], rest);
      }
    }
  }

  lemma NilGood(keyed: bool)
    ensures GoodRest(Nil, keyed) && HeightRest(Nil) == 0
  {
  }

  lemma NoSpaces()
    ensures Spaces([])
  {
  }

  lemma NotClosed(d: seq<byte>, t: nat, rest: Members, keyed: bool)
    requires At(d, t, ShowRest(rest, keyed)) && t < |d| && d[t] != Close(keyed)
    ensures rest.Member?
  {
    if rest.Nil? {
      AtByte(d, t, [Close(keyed)], 0);
    }
  }

  /** A member as far as its value. */
  ghost predicate HeadRead(d: seq<byte>, pos: nat, depth: nat, keyed: bool, end: nat, item: Members) {
    && item.Member? && (keyed ==> Escaped(item.key) && Spaces(item.mid) && Spaces(item.gap))
    && Good(item.value) && depth + 1 + Height(item.value) <= MAX_DEPTH
    && At(d, pos, Front(item, keyed) + Show(item.value)) && end == pos + |Front(item, keyed) + Show(item.value)|
  }

  /** The parts of a member, put together. */
  lemma MemberRead(d: seq<byte>, pos: nat, depth: nat, keyed: bool, e: nat, s: nat, item: Members, next: seq<byte>, rest: Members)
    returns (ms: Members)
    requires HeadRead(d, pos, depth, keyed, e, item) && e <= s <= |d| && Spaces(d[e..s]) && Spaces(next)
    requires GoodRest(rest, keyed) && depth + HeightRest(rest) <= MAX_DEPTH
    requires At(d, s, if rest.Nil? then [Close(keyed)] else [COMMA] + (next + ShowRest(rest, keyed)))
    ensures GoodRest(ms, keyed) && At(d, pos, ShowRest(ms, keyed)) && depth + HeightRest(ms) <= MAX_DEPTH
    ensures pos + |ShowRest(ms, keyed)| == s + if rest.Nil? then 1 else 1 + |next| + |ShowRest(rest, keyed)|
  {
    hide At, Spaces, Show, Good, Escaped, Height;
    ms := Member(item.key, item.mid, item.gap, item.value, d[e..s], next, rest);
    MemberShown(d, pos, e, s, ms, keyed);
  }

  lemma MemberShown(d: seq<byte>, pos: nat, e: nat, s: nat, ms: Members, keyed: bool)
    requires ms.Member? && At(d, pos, Front(ms, keyed) + Show(ms.value)) && e == pos + |Front(ms, keyed) + Show(ms.value)|
    requires e <= s <= |d| && ms.after == d[e..s] && At(d, s, Behind(ms, keyed))
    ensures At(d, pos, ShowRest(ms, keyed)) && pos + |ShowRest(ms, keyed)| == s + |Behind(ms, keyed)|
  {
    hide At, ShowRest, Front, Behind, Show;
    RestShown(ms, keyed);
    AtSlice(d, e, s);
    AtJoin(d, e, ms.after, Behind(ms, keyed));
    AtJoin(d, pos, Front(ms, keyed) + Show(ms.value), ms.after + Behind(ms, keyed));
  }

  /** What the scanner did for one member. */
  lemma ItemDid(d: seq<byte>, pos: nat, depth: nat, keyed: bool)
    requires pos <= |d| && Item(d, pos, depth, keyed).Some?
    ensures Span(d, pos, depth + 1).Some?
    ensures !keyed ==> Item(d, pos, depth, keyed) == Some(Span(d, pos, depth + 1).value.end)
    ensures keyed ==>
      var part := Span(d, pos, depth + 1).value;
      var c := Skip(d, part.end);
      && d[part.start] == QUOTE && c < |d| && d[c] == COLON && Span(d, c + 1, depth + 1).Some?
      && Item(d, pos, depth, keyed) == Some(Span(d, c + 1, depth + 1).value.end)
  {
    hide Span, Skip;
  }

  lemma {:induction false} ItemRead(d: seq<byte>, pos: nat, depth: nat, keyed: bool) returns (item: Members)
    requires pos < |d| && !Space(d[pos]) && Item(d, pos, depth, keyed).Some?
    ensures HeadRead(d, pos, depth, keyed, Item(d, pos, depth, keyed).value, item)
    decreases |d| - pos, 1
  {
    hide Item, Skip, Span, At, Spaces, Show, Good, Escaped, EndsScalar, Height, Ends;
    ItemDid(d, pos, depth, keyed);
    StartsHere(d, pos, depth + 1);
    var part := Span(d, pos, depth + 1).value;
    var v := SpanRead(d, pos, depth + 1);
    if !keyed {
      item := Member([], [], [], v, [], [], Nil);
      assert [] + Show(v) == Show(v);
    } else {
      var c := Skip(d, part.end);
      Skipped(d, part.end);
      var w := SpanRead(d, c + 1, depth + 1);
      var x := Span(d, c + 1, depth + 1).value;
      item := Member(v.body, d[part.end..c], d[c + 1..x.start], w, [], [], Nil);
      KeyRead(d, pos, part.end, c, x.start, item);
      QuotationGood(v);
    }
  }

  lemma QuotationGood(v: Value)
    requires Good(v) && v.Quotation?
    ensures Escaped(v.body)
  {
  }

  lemma StartsHere(d: seq<byte>, pos: nat, depth: nat)
    requires pos < |d| && !Space(d[pos]) && Span(d, pos, depth).Some?
    ensures Span(d, pos, depth).value.start == pos
  {
    hide StringEnd, ScalarEnd, Items;
  }

  lemma KeyRead(d: seq<byte>, pos: nat, q: nat, c: nat, start: nat, item: Members)
    requires item.Member? && At(d, pos, Show(Quotation(item.key))) && q == pos + |Show(Quotation(item.key))|
    requires q <= c < start <= |d| && d[c] == COLON && item.mid == d[q..c] && item.gap == d[c + 1..start]
    requires At(d, start, Show(item.value))
    ensures At(d, pos, Front(item, true) + Show(item.value))
    ensures start + |Show(item.value)| == pos + |Front(item, true) + Show(item.value)|
  {
    hide At;
    var quoted, value := Show(Quotation(item.key)), Show(item.value);
    AtSlice(d, q, c);
    AtSlice(d, c + 1, start);
    AtOne(d, c);
    AtJoin(d, pos, quoted, item.mid);
    AtJoin(d, pos, quoted + item.mid, [COLON]);
    AtJoin(d, pos, quoted + item.mid + [COLON], item.gap);
    AtJoin(d, pos, quoted + item.mid + [COLON] + item.gap, value);
    assert quoted + item.mid + [COLON] + item.gap == Front(item, true);
  }

  /**
   * The scanner accepts a value, from here to there, exactly when what stands
   * there behind the space is the text of one that nests no deeper than 64 and,
   * if it is a bare word, ends there.
   */
  lemma SpanExact(d: seq<byte>, pos: nat, depth: nat, x: Extent)
    requires pos <= |d|
    ensures Span(d, pos, depth) == Some(x) <==> exists v :: Scanned(d, pos, depth, x, v)
  {
    hide Span, Scanned;
    if Span(d, pos, depth) == Some(x) {
      var v := SpanRead(d, pos, depth);
    }
    forall v | Scanned(d, pos, depth, x, v)
      ensures Span(d, pos, depth) == Some(x)
    {
      ScannedSpan(d, pos, depth, x, v);
    }
  }

  lemma ScannedSpan(d: seq<byte>, pos: nat, depth: nat, x: Extent, v: Value)
    requires pos <= |d| && Scanned(d, pos, depth, x, v)
    ensures Span(d, pos, depth) == Some(x)
  {
    hide Span, Spaces, Show, Good, Height, At, Ends;
    AtSlice(d, pos, x.start);
    AtJoin(d, pos, d[pos..x.start], Show(v));
    ShownSpan(d, pos, d[pos..x.start], v, depth);
  }
}

/** What a client caches of its granted scopes, against what the events on the wire make of them. */
module ScopeCache {
  import opened Bytes
  import opened Frames
  import StateWire

  const OP_SESSION_REVOKED: u16 := 6
  const OP_STATE_EVENT: u16 := 8
  const GRANTS_DOMAIN: u32 := 16

  /** A mask as the set of its bits: masking with a complement is taking those bits away. */
  type Scopes = set<nat>

  predicate Bit(mask: nat, i: nat) {
    if i == 0 then mask % 2 == 1 else Bit(mask / 2, i - 1)
  }

  function ScopesOf(mask: u32): (r: Scopes) {
    set i: nat | i < 32 && Bit(mask, i)
  }

  function Power2(n: nat): (r: nat) {
    if n == 0 then 1 else 2 * Power2(n - 1)
  }

  lemma {:induction false} BitsDetermine(a: nat, b: nat, n: nat)
    requires a < Power2(n) && b < Power2(n) && forall i :: 0 <= i < n ==> (Bit(a, i) <==> Bit(b, i))
    ensures a == b
    decreases n
  {
    if n > 0 {
      assert Bit(a, 0) <==> Bit(b, 0);
      forall i | 0 <= i < n - 1
        ensures Bit(a / 2, i) <==> Bit(b / 2, i)
      {
        assert Bit(a, i + 1) <==> Bit(b, i + 1);
      }
      BitsDetermine(a / 2, b / 2, n - 1);
    }
  }

  /** Different masks are different sets. */
  lemma ScopesOfInjective(a: u32, b: u32)
    requires ScopesOf(a) == ScopesOf(b)
    ensures a == b
  {
    assert Power2(8) == 0x100;
    assert Power2(16) == 0x1_0000;
    assert Power2(24) == 0x100_0000;
    assert Power2(32) == 0x1_0000_0000;
    forall i | 0 <= i < 32
      ensures Bit(a, i) <==> Bit(b, i)
    {
      assert i in ScopesOf(a) <==> Bit(a, i);
    }
    BitsDetermine(a, b, 32);
  }

  predicate IsState(f: Frame) {
    IsEvent(f.flags) && f.opcode == OP_STATE_EVENT
  }

  /** The state events among frames, in order. */
  function States(fs: seq<Frame>): (r: seq<Frame>) {
    if fs == [] then [] else
      States(fs[..|fs| - 1]) + if IsState(fs[|fs| - 1]) then [fs[|fs| - 1]] else []
  }

  lemma StatesAppend(fs: seq<Frame>, f: Frame)
    ensures States(fs + [f]) == States(fs) + if IsState(f) then [f] else []
  {
    assert (fs + [f])[..|fs|] == fs;
  }

  lemma {:induction false} StatesPrefix(a: seq<Frame>, b: seq<Frame>)
    requires a <= b
    ensures States(a) <= States(b)
    decreases |b|
  {
    if |a| < |b| {
      StatesPrefix(a, b[..|b| - 1]);
    } else {
      assert a == b;
    }
  }

  /** The scopes a revocation takes away, if the frame is one. */
  function Revocation(f: Frame): (r: Option<u32>) {
    if f.opcode != OP_SESSION_REVOKED || f.flags != FLAG_EVENT || f.requestId != 0 || |f.payload| != 8
       || FromLe32(f.payload[4..]) != 0 || FromLe32(f.payload[..4]) == 0
    then None else Some(FromLe32(f.payload[..4]))
  }

  /** The scopes a grant event announces, if the frame is one. */
  function GrantOf(f: Frame): (r: Option<Scopes>) {
    var e := StateWire.Decode(f.payload);
    if IsState(f) && e.Some? && e.value.domain == GRANTS_DOMAIN then Some(ScopesOf(e.value.grantedScopes)) else None
  }

  function TakenBy(f: Frame): (r: Scopes) {
    if IsEvent(f.flags) && Revocation(f).Some? then ScopesOf(Revocation(f).value) else {}
  }

  /** One frame's effect on a set of scopes. */
  function ScopesAfter(granted: Scopes, f: Frame): (r: Scopes) {
    if GrantOf(f).Some? then GrantOf(f).value else granted - TakenBy(f)
  }

  /** What the wire says: every frame applied once, in the order of arrival. */
  function WireScopes(initial: Scopes, fs: seq<Frame>): (r: Scopes) {
    if fs == [] then initial else ScopesAfter(WireScopes(initial, fs[..|fs| - 1]), fs[|fs| - 1])
  }

  /** The scopes the last grant event among the frames announced, or the given ones. */
  function LastGrant(initial: Scopes, fs: seq<Frame>): (r: Scopes) {
    if fs == [] then initial
    else if GrantOf(fs[|fs| - 1]).Some? then GrantOf(fs[|fs| - 1]).value
    else LastGrant(initial, fs[..|fs| - 1])
  }

  /** All that revocations behind the last grant event took away. */
  function TakenSince(fs: seq<Frame>): (r: Scopes) {
    if fs == [] then {}
    else if GrantOf(fs[|fs| - 1]).Some? then {}
    else TakenSince(fs[..|fs| - 1]) + TakenBy(fs[|fs| - 1])
  }

  /** The last grant event still waiting in a queue, if any. */
  function QueuedGrant(queue: seq<Frame>): (r: Option<Scopes>) {
    if queue == [] then None
    else if GrantOf(queue[|queue| - 1]).Some? then GrantOf(queue[|queue| - 1])
    else QueuedGrant(queue[..|queue| - 1])
  }

  lemma TakeBoth(g: Scopes, a: Scopes, b: Scopes)
    ensures g - a - b == g - (a + b) == g - b - (a + b)
  {
  }

  lemma TakeNone(g: Scopes)
    ensures g - {} == g
  {
  }

  lemma TakeNothing(g: Scopes, t: Scopes)
    ensures g - t == g <==> g !! t
  {
    if g !! t {
      assert g - t == g;
    }
  }

  /** What the wire says is the last announcement less everything taken since. */
  lemma {:induction false} WireIsLastLess(initial: Scopes, fs: seq<Frame>)
    ensures WireScopes(initial, fs) == LastGrant(initial, fs) - TakenSince(fs)
    decreases |fs|
  {
    hide GrantOf, TakenBy;
    if fs == [] {
      TakeNone(initial);
    } else {
      var front, f := fs[..|fs| - 1], fs[|fs| - 1];
      WireIsLastLess(initial, front);
      TakeBoth(LastGrant(initial, front), TakenSince(front), TakenBy(f));
      if GrantOf(f).Some? {
        TakeNone(GrantOf(f).value);
      }
    }
  }

  lemma GrantIsState(f: Frame)
    ensures GrantOf(f).Some? ==> IsState(f) && TakenBy(f) == {}
  {
  }

  lemma {:induction false} LastGrantOfStates(initial: Scopes, fs: seq<Frame>)
    ensures LastGrant(initial, States(fs)) == LastGrant(initial, fs)
    decreases |fs|
  {
    hide GrantOf, IsState;
    if fs != [] {
      var front, f := fs[..|fs| - 1], fs[|fs| - 1];
      LastGrantOfStates(initial, front);
      GrantIsState(f);
      if IsState(f) {
        assert (States(front) + [f])[..|States(front)|] == States(front);
      } else {
        assert States(front) + [] == States(front);
      }
    }
  }

  lemma {:induction false} LastGrantBehind(initial: Scopes, a: seq<Frame>, q: seq<Frame>)
    ensures LastGrant(initial, a + q) == if QueuedGrant(q).Some? then QueuedGrant(q).value else LastGrant(initial, a)
    decreases |q|
  {
    hide GrantOf;
    if q == [] {
      assert a + q == a;
    } else {
      assert (a + q)[..|a + q| - 1] == a + q[..|q| - 1];
      LastGrantBehind(initial, a, q[..|q| - 1]);
    }
  }

  lemma {:induction false} QueuedGrantTail(q: seq<Frame>)
    requires q != []
    ensures QueuedGrant(q) == if QueuedGrant(q[1..]).Some? then QueuedGrant(q[1..]) else GrantOf(q[0])
    decreases |q|
  {
    hide GrantOf;
    if |q| == 1 {
      assert q[..0] == [] && q[1..] == [];
    } else {
      var t := q[1..];
      assert t[..|t| - 1] == q[..|q| - 1][1..];
      QueuedGrantTail(q[..|q| - 1]);
    }
  }

  lemma QueuedGrantAppend(q: seq<Frame>, f: Frame)
    ensures QueuedGrant(q + [f]) == if GrantOf(f).Some? then GrantOf(f) else QueuedGrant(q)
  {
    assert (q + [f])[..|q|] == q;
  }

  lemma WireAppend(initial: Scopes, fs: seq<Frame>, f: Frame)
    ensures WireScopes(initial, fs + [f]) == ScopesAfter(WireScopes(initial, fs), f)
    ensures TakenSince(fs + [f]) == if GrantOf(f).Some? then {} else TakenSince(fs) + TakenBy(f)
  {
    hide GrantOf, TakenBy;
    assert (fs + [f])[..|fs|] == fs;
  }

  // ----- the cache -----------------------------------------------------------------

  /** With no grant event waiting, the wire has at most taken more than the cache knows. */
  ghost predicate Settles(initial: Scopes, extracted: seq<Frame>, queue: seq<Frame>, cached: Scopes) {
    QueuedGrant(queue).None? ==> WireScopes(initial, extracted) == cached - TakenSince(extracted)
  }

  /** Frames that were taken out, those delivered, and those waiting, as a connection keeps them. */
  ghost predicate InOrder(extracted: seq<Frame>, delivered: seq<Frame>, queue: seq<Frame>) {
    delivered + queue == States(extracted)
  }

  /** An arrival that is applied, and queued if it is state: both sides see it. */
  lemma ArrivalSettles(initial: Scopes, extracted: seq<Frame>, queue: seq<Frame>, cached: Scopes, f: Frame)
    requires Settles(initial, extracted, queue, cached)
    ensures Settles(initial, extracted + [f], if IsState(f) then queue + [f] else queue, ScopesAfter(cached, f))
    ensures queue == [] ==> Settles(initial, extracted + [f], queue, ScopesAfter(cached, f))
  {
    hide GrantOf, TakenBy, WireScopes, TakenSince, QueuedGrant, IsState;
    WireAppend(initial, extracted, f);
    QueuedGrantAppend(queue, f);
    GrantIsState(f);
    NothingQueued();
    if GrantOf(f).Some? {
      TakeNone(GrantOf(f).value);
    } else {
      TakeBoth(cached, TakenSince(extracted), TakenBy(f));
    }
  }

  lemma NothingQueued()
    ensures QueuedGrant([]).None?
  {
  }

  /** With a grant event waiting, the last one and what was taken since are what the wire says. */
  lemma WaitingWire(initial: Scopes, extracted: seq<Frame>, delivered: seq<Frame>, queue: seq<Frame>)
    requires InOrder(extracted, delivered, queue) && QueuedGrant(queue).Some?
    ensures WireScopes(initial, extracted) == QueuedGrant(queue).value - TakenSince(extracted)
  {
    hide WireScopes, LastGrant, TakenSince, QueuedGrant, States;
    WireIsLastLess(initial, extracted);
    LastGrantOfStates(initial, extracted);
    LastGrantBehind(initial, delivered, queue);
  }

  /** A delivery from the queue: the cache takes what the event announced. */
  lemma DeliverySettles(initial: Scopes, extracted: seq<Frame>, delivered: seq<Frame>, queue: seq<Frame>, cached: Scopes)
    requires InOrder(extracted, delivered, queue) && queue != [] && Settles(initial, extracted, queue, cached)
    ensures Settles(initial, extracted, queue[1..], if GrantOf(queue[0]).Some? then GrantOf(queue[0]).value else cached)
  {
    hide GrantOf, WireScopes, TakenSince, QueuedGrant, States;
    QueuedGrantTail(queue);
    if QueuedGrant(queue).Some? {
      WaitingWire(initial, extracted, delivered, queue);
    }
  }

  /** Taking the head of the queue leaves a current cache current: it announces no scopes, or those the wire says now. */
  ghost predicate HeadCurrent(queue: seq<Frame>, extracted: seq<Frame>)
    requires queue != []
  {
    || GrantOf(queue[0]).None?
    || (QueuedGrant(queue).Some? && GrantOf(queue[0]).value == QueuedGrant(queue).value - TakenSince(extracted))
  }

  lemma HeadCurrentExactly(initial: Scopes, extracted: seq<Frame>, delivered: seq<Frame>, queue: seq<Frame>, cached: Scopes)
    requires InOrder(extracted, delivered, queue) && queue != [] && cached == WireScopes(initial, extracted)
    ensures (if GrantOf(queue[0]).Some? then GrantOf(queue[0]).value else cached) == WireScopes(initial, extracted)
      <==> HeadCurrent(queue, extracted)
  {
    hide GrantOf, WireScopes, TakenSince, QueuedGrant, States;
    QueuedGrantTail(queue);
    if QueuedGrant(queue).Some? {
      WaitingWire(initial, extracted, delivered, queue);
    }
  }

  /**
   * When the cache is what the wire says. With a grant event waiting: if it is
   * that event's scopes less what was taken since. With none waiting, and so
   * whenever the queue is drained: if nothing it holds was taken behind the last
   * grant event.
   */
  lemma CurrentExactly(initial: Scopes, extracted: seq<Frame>, delivered: seq<Frame>, queue: seq<Frame>, cached: Scopes)
    requires InOrder(extracted, delivered, queue) && Settles(initial, extracted, queue, cached)
    ensures cached == WireScopes(initial, extracted) <==>
      if QueuedGrant(queue).Some? then cached == QueuedGrant(queue).value - TakenSince(extracted)
      else cached !! TakenSince(extracted)
  {
    hide WireScopes, TakenSince, QueuedGrant, States;
    if QueuedGrant(queue).Some? {
      WaitingWire(initial, extracted, delivered, queue);
    } else {
      TakeNothing(cached, TakenSince(extracted));
    }
  }

  /** A grant event overtaken by a larger one is still what the wire says, if a revocation behind that one undid it. */
  lemma OvertakenYetCurrent(initial: Scopes, a: Frame, b: Frame, c: Frame)
    requires GrantOf(a) == Some({0}) && GrantOf(b) == Some({0, 1}) && GrantOf(c) == None && TakenBy(c) == {1}
    ensures WireScopes(initial, [a, b, c]) == GrantOf(a).value
  {
    hide GrantOf, TakenBy;
    WireAppend(initial, [a, b], c);
    WireAppend(initial, [a], b);
    assert [a] + [b] == [a, b] && [a, b] + [c] == [a, b, c];
  }
}

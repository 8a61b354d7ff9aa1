/** Grants cached by a lease and checked on both sides of an operation while the store and other sessions move. */
module Grants {
  import opened Bytes

  type Scopes = set<nat>

  /** The lease's cache: what was asked for, what the store allowed, and at which generation. */
  datatype Lease = Lease(active: bool, requested: Scopes, granted: Scopes, generation: nat)

  /** An operation under way: its scope, and the generation its session had when it was admitted. */
  datatype Operation = Operation(scope: Scopes, before: nat)

  datatype Session = Session(granted: Scopes, generation: nat, operation: Option<Operation>)

  /** The store is its history: what this application was granted at each generation, the last being now. */
  datatype State = State(store: seq<Scopes>, lease: Lease, sessions: seq<Session>)

  /** Which of the calls a refresh makes succeed, and how the store changes between them. */
  datatype Luck = Luck(storeAnswers: bool, identityHolds: bool, checkAnswers: bool, meanwhile: seq<Scopes>)

  function Now(store: seq<Scopes>): (g: nat)
    requires store != []
  {
    |store| - 1
  }

  datatype Refreshed = Refreshed(lease: Lease, ok: bool, changed: bool, store: seq<Scopes>)

  /** session_refresh on a lease, with its lock held; the store is not under that lock. */
  function RefreshLease(lease: Lease, store: seq<Scopes>, luck: Luck): (r: Refreshed)
    requires store != []
  {
    var asked := lease.active && luck.storeAnswers;
    var generation := if asked then Now(store) else lease.generation;
    var known := asked && luck.identityHolds;
    var changed := generation != lease.generation;
    var later := store + luck.meanwhile;
    if known && changed && lease.requested != {} then
      if luck.checkAnswers
      then Refreshed(lease.(granted := later[Now(later)] * lease.requested, generation := Now(later)), true, changed, later)
      else Refreshed(lease.(granted := {}, generation := generation), false, changed, later)
    else
      Refreshed(lease.(granted := if known then lease.granted else {}, generation := generation), known, changed, later)
  }

  /** complete_authorization: more is asked for, and everything is checked again. */
  function AuthorizeLease(lease: Lease, store: seq<Scopes>, extra: Scopes, luck: Luck): (r: Refreshed)
    requires store != []
  {
    var requested := lease.requested + extra;
    var later := store + luck.meanwhile;
    var current := lease.active && luck.identityHolds && (if requested == {} then luck.storeAnswers else luck.checkAnswers);
    if !current then Refreshed(Lease(false, requested, {}, lease.generation), false, false, later)
    else Refreshed(Lease(true, requested, later[Now(later)] * requested, Now(later)), true, false, later)
  }

  // ----- steps --------------------------------------------------------------------------

  datatype Step =
    | Changes(scopes: Scopes)                     // a grant or a revocation, by anyone
    | Joins                                       // another session on the lease
    | Refreshes(k: nat, luck: Luck)
    | Authorizes(k: nat, extra: Scopes, luck: Luck)
    | Begins(k: nat, scope: Scopes, luck: Luck)   // the check before an operation
    | Ends(k: nat, luck: Luck)                    // the check after it
    | LeaseEnds

  predicate Enabled(s: State, step: Step) {
    && s.store != []
    && match step
       case Refreshes(k, _) => k < |s.sessions|
       case Authorizes(k, _, _) => k < |s.sessions|
       case Begins(k, _, _) => k < |s.sessions| && s.sessions[k].operation.None?
       case Ends(k, _) => k < |s.sessions| && s.sessions[k].operation.Some?
       case _ => true
  }

  /** The session copies what the lease now holds. */
  function Absorb(s: State, k: nat, r: Refreshed, operation: Option<Operation>): (t: State)
    requires k < |s.sessions|
  {
    State(r.store, r.lease, s.sessions[k := Session(r.lease.granted, r.lease.generation, operation)])
  }

  /** An operation is admitted when the refresh succeeds and every scope it needs is granted. */
  predicate Admits(r: Refreshed, scope: Scopes) {
    r.ok && scope <= r.lease.granted
  }

  /** It passes afterwards when moreover nothing has moved. */
  predicate Passes(r: Refreshed, op: Operation) {
    r.ok && (op.scope == {} || (!r.changed && r.lease.generation == op.before && op.scope <= r.lease.granted))
  }

  function Next(s: State, step: Step): (t: State)
    requires Enabled(s, step)
  {
    match step
    case Changes(scopes) => s.(store := s.store + [scopes])
    case Joins => s.(sessions := s.sessions + [Session(s.lease.granted, s.lease.generation, None)])
    case Refreshes(k, luck) =>
      Absorb(s, k, RefreshLease(s.lease, s.store, luck), s.sessions[k].operation)
    case Authorizes(k, extra, luck) =>
      Absorb(s, k, AuthorizeLease(s.lease, s.store, extra, luck), s.sessions[k].operation)
    case Begins(k, scope, luck) =>
      var r := RefreshLease(s.lease, s.store, luck);
      Absorb(s, k, r, if Admits(r, scope) then Some(Operation(scope, r.lease.generation)) else None)
    case Ends(k, luck) => Absorb(s, k, RefreshLease(s.lease, s.store, luck), None)
    case LeaseEnds => s.(lease := s.lease.(active := false, granted := {}))
  }

  // ----- what always holds -------------------------------------------------------------------

  /** Cached grants are among those the store gave at the generation they are cached under. */
  ghost predicate Backed(store: seq<Scopes>, granted: Scopes, generation: nat) {
    generation < |store| && granted <= store[generation]
  }

  ghost predicate Sound(s: State) {
    && Backed(s.store, s.lease.granted, s.lease.generation) && s.lease.granted <= s.lease.requested
    && (!s.lease.active ==> s.lease.granted == {})
    && forall k :: 0 <= k < |s.sessions| ==>
         && Backed(s.store, s.sessions[k].granted, s.sessions[k].generation)
         && (s.sessions[k].operation.Some? ==>
               Backed(s.store, s.sessions[k].operation.value.scope, s.sessions[k].operation.value.before))
  }

  /** A new lease: what was asked for, checked against the store as it is. */
  function Start(store: seq<Scopes>, requested: Scopes): (s: State)
    requires store != []
  {
    State(store, Lease(true, requested, store[Now(store)] * requested, Now(store)), [])
  }

  lemma StartSound(store: seq<Scopes>, requested: Scopes)
    requires store != []
    ensures Sound(Start(store, requested))
  {
  }

  lemma RefreshSound(lease: Lease, store: seq<Scopes>, luck: Luck)
    requires Backed(store, lease.granted, lease.generation) && lease.granted <= lease.requested
    ensures var r := RefreshLease(lease, store, luck);
      && store <= r.store && Backed(r.store, r.lease.granted, r.lease.generation)
      && r.lease.granted <= r.lease.requested && r.lease.active == lease.active
      && r.lease.generation >= lease.generation && (!lease.active ==> !r.ok && r.lease.granted == {})
  {
  }

  lemma AuthorizeSound(lease: Lease, store: seq<Scopes>, extra: Scopes, luck: Luck)
    requires Backed(store, lease.granted, lease.generation)
    ensures var r := AuthorizeLease(lease, store, extra, luck);
      && store <= r.store && Backed(r.store, r.lease.granted, r.lease.generation)
      && r.lease.granted <= r.lease.requested && r.lease.generation >= lease.generation
      && (!r.lease.active ==> r.lease.granted == {})
  {
  }

  lemma BackedLater(a: seq<Scopes>, b: seq<Scopes>, granted: Scopes, generation: nat)
    requires Backed(a, granted, generation) && a <= b
    ensures Backed(b, granted, generation)
  {
  }

  lemma AbsorbSound(s: State, k: nat, r: Refreshed, operation: Option<Operation>)
    requires Sound(s) && k < |s.sessions| && s.store <= r.store
    requires Backed(r.store, r.lease.granted, r.lease.generation) && r.lease.granted <= r.lease.requested
    requires !r.lease.active ==> r.lease.granted == {}
    requires operation.Some? ==> Backed(r.store, operation.value.scope, operation.value.before)
    ensures Sound(Absorb(s, k, r, operation))
  {
    var t := Absorb(s, k, r, operation);
    forall i | 0 <= i < |t.sessions|
      ensures Backed(t.store, t.sessions[i].granted, t.sessions[i].generation)
      ensures t.sessions[i].operation.Some? ==>
        Backed(t.store, t.sessions[i].operation.value.scope, t.sessions[i].operation.value.before)
    {
      if i != k {
        BackedLater(s.store, t.store, s.sessions[i].granted, s.sessions[i].generation);
        if s.sessions[i].operation.Some? {
          var op := s.sessions[i].operation.value;
          BackedLater(s.store, t.store, op.scope, op.before);
        }
      }
    }
  }

  /** Every step keeps the caches honest, and only adds to the store's history. */
  lemma NextSound(s: State, step: Step)
    requires Sound(s) && Enabled(s, step)
    ensures Sound(Next(s, step)) && s.store <= Next(s, step).store
  {
    hide RefreshLease, AuthorizeLease, Absorb;
    match step {
      case Refreshes(k, luck) =>
        RefreshSound(s.lease, s.store, luck);
        KeepsOperation(s, k, RefreshLease(s.lease, s.store, luck));
      case Authorizes(k, extra, luck) =>
        AuthorizeSound(s.lease, s.store, extra, luck);
        KeepsOperation(s, k, AuthorizeLease(s.lease, s.store, extra, luck));
      case Begins(k, scope, luck) =>
        RefreshSound(s.lease, s.store, luck);
        var r := RefreshLease(s.lease, s.store, luck);
        AbsorbSound(s, k, r, if Admits(r, scope) then Some(Operation(scope, r.lease.generation)) else None);
        AbsorbStore(s, k, r, if Admits(r, scope) then Some(Operation(scope, r.lease.generation)) else None);
      case Ends(k, luck) =>
        RefreshSound(s.lease, s.store, luck);
        AbsorbSound(s, k, RefreshLease(s.lease, s.store, luck), None);
        AbsorbStore(s, k, RefreshLease(s.lease, s.store, luck), None);
      case _ =>
    }
  }

  lemma AbsorbStore(s: State, k: nat, r: Refreshed, operation: Option<Operation>)
    requires k < |s.sessions|
    ensures Absorb(s, k, r, operation).store == r.store
  {
  }

  lemma KeepsOperation(s: State, k: nat, r: Refreshed)
    requires Sound(s) && k < |s.sessions| && s.store <= r.store
    requires Backed(r.store, r.lease.granted, r.lease.generation) && r.lease.granted <= r.lease.requested
    requires !r.lease.active ==> r.lease.granted == {}
    ensures Sound(Absorb(s, k, r, s.sessions[k].operation)) && Absorb(s, k, r, s.sessions[k].operation).store == r.store
  {
    var op := s.sessions[k].operation;
    if op.Some? {
      BackedLater(s.store, r.store, op.value.scope, op.value.before);
    }
    AbsorbSound(s, k, r, op);
  }

  // ----- whole runs ------------------------------------------------------------------------------

  ghost predicate Runs(s: State, steps: seq<Step>, last: State)
    decreases |steps|
  {
    if steps == [] then last == s else Enabled(s, steps[0]) && Runs(Next(s, steps[0]), steps[1..], last)
  }

  lemma {:induction false} RunSound(s: State, steps: seq<Step>, last: State)
    requires Sound(s) && Runs(s, steps, last)
    ensures Sound(last) && s.store <= last.store
    decreases |steps|
  {
    hide Sound, Enabled, Next;
    if steps != [] {
      NextSound(s, steps[0]);
      RunSound(Next(s, steps[0]), steps[1..], last);
    }
  }

  /** Over every run of a lease, what it and its sessions cache is what the store gave at the generation they note. */
  lemma CachesBacked(store: seq<Scopes>, requested: Scopes, steps: seq<Step>, s: State)
    requires store != [] && Runs(Start(store, requested), steps, s)
    ensures Backed(s.store, s.lease.granted, s.lease.generation)
    ensures forall k :: 0 <= k < |s.sessions| ==> Backed(s.store, s.sessions[k].granted, s.sessions[k].generation)
  {
    hide Runs, Backed;
    StartSound(store, requested);
    RunSound(Start(store, requested), steps, s);
  }

  /** The steps of other sessions, of the store, and refreshes: anything but the end or start of k's operation. */
  predicate Leaves(step: Step, k: nat) {
    match step
    case Begins(j, _, _) => j != k
    case Ends(j, _) => j != k
    case _ => true
  }

  lemma {:induction false} OperationStays(s: State, steps: seq<Step>, last: State, k: nat)
    requires Runs(s, steps, last) && k < |s.sessions| && forall i :: 0 <= i < |steps| ==> Leaves(steps[i], k)
    ensures k < |last.sessions| && last.sessions[k].operation == s.sessions[k].operation
    decreases |steps|
  {
    hide RefreshLease, AuthorizeLease;
    if steps != [] {
      assert Leaves(steps[0], k);
      OperationStays(Next(s, steps[0]), steps[1..], last, k);
    }
  }

  /**
   * Grant continuity: whatever happens between the two checks of a scoped
   * operation, it passes the second only if the store has not changed since the
   * first and grants the whole scope.
   */
  lemma GrantContinuity(start: State, k: nat, scope: Scopes, luck: Luck, steps: seq<Step>, last: State, after: Luck)
    requires Sound(start) && Enabled(start, Begins(k, scope, luck)) && scope != {}
    requires Admits(RefreshLease(start.lease, start.store, luck), scope)
    requires Runs(Next(start, Begins(k, scope, luck)), steps, last)
    requires forall i :: 0 <= i < |steps| ==> Leaves(steps[i], k)
    requires last.store != [] && Passes(RefreshLease(last.lease, last.store, after),
                                        Operation(scope, RefreshLease(start.lease, start.store, luck).lease.generation))
    ensures last.store == Next(start, Begins(k, scope, luck)).store
    ensures scope <= last.store[Now(last.store)]
    ensures k < |last.sessions| && last.sessions[k].operation == Some(Operation(scope, Now(last.store)))
  {
    var r := RefreshLease(start.lease, start.store, luck);
    var begun := Next(start, Begins(k, scope, luck));
    RefreshSound(start.lease, start.store, luck);
    NextSound(start, Begins(k, scope, luck));
    RunSound(begun, steps, last);
    OperationStays(begun, steps, last, k);
    PassedNow(last, after, Operation(scope, r.lease.generation));
  }

  /** Passing means the generation read now is the one the operation was admitted at. */
  lemma PassedNow(s: State, luck: Luck, op: Operation)
    requires Sound(s) && op.scope != {} && Passes(RefreshLease(s.lease, s.store, luck), op)
    ensures Now(s.store) == op.before && op.scope <= s.store[op.before]
  {
  }

  /** Nothing goes wrong in a refresh. */
  predicate Smooth(step: Step) {
    match step
    case Refreshes(_, luck) => luck.storeAnswers && luck.identityHolds && luck.checkAnswers && luck.meanwhile == []
    case Authorizes(_, _, luck) => luck.storeAnswers && luck.identityHolds && luck.checkAnswers && luck.meanwhile == []
    case Begins(_, _, luck) => luck.storeAnswers && luck.identityHolds && luck.checkAnswers && luck.meanwhile == []
    case Ends(_, luck) => luck.storeAnswers && luck.identityHolds && luck.checkAnswers && luck.meanwhile == []
    case LeaseEnds => false
    case _ => true
  }

  /** The lease is fresh and covers the scope. */
  ghost predicate Covers(s: State, scope: Scopes) {
    s.store != [] && s.lease.active && s.lease.generation == Now(s.store) && scope <= s.lease.granted
  }

  lemma SmoothCovers(s: State, step: Step, scope: Scopes)
    requires Sound(s) && Covers(s, scope) && Enabled(s, step) && Smooth(step) && !step.Changes?
    ensures Covers(Next(s, step), scope) && Next(s, step).store == s.store
  {
    var later := s.store + [];
    assert later == s.store;
    match step {
      case Authorizes(k, extra, luck) =>
        var requested := s.lease.requested + extra;
        assert s.lease.granted <= s.store[Now(s.store)] * requested;
      case _ =>
    }
  }

  /**
   * The converse: while the store does not change and nothing fails, no
   * refreshing or authorizing by other sessions makes an operation fail.
   */
  lemma {:induction false} UnchangedPasses(s: State, steps: seq<Step>, last: State, scope: Scopes, luck: Luck)
    requires Sound(s) && Covers(s, scope) && Runs(s, steps, last)
    requires forall i :: 0 <= i < |steps| ==> Smooth(steps[i]) && !steps[i].Changes?
    requires Smooth(Refreshes(0, luck))
    ensures Covers(last, scope) && last.store == s.store
    ensures Passes(RefreshLease(last.lease, last.store, luck), Operation(scope, Now(s.store)))
    decreases |steps|
  {
    if steps != [] {
      hide RefreshLease, AuthorizeLease, Next, Sound, Covers;
      assert Smooth(steps[0]);
      SmoothCovers(s, steps[0], scope);
      NextSound(s, steps[0]);
      UnchangedPasses(Next(s, steps[0]), steps[1..], last, scope, luck);
    }
  }

  // ----- what a refresh leaves, exactly ---------------------------------------------------------

  /** Nothing the step asks of the store or the identity check fails. */
  predicate Answers(lease: Lease, store: seq<Scopes>, luck: Luck)
    requires store != []
  {
    && lease.active && luck.storeAnswers && luck.identityHolds
    && (lease.generation != Now(store) && lease.requested != {} ==> luck.checkAnswers)
  }

  /** Everything is asked for again and answered. */
  predicate Rechecks(lease: Lease, store: seq<Scopes>, luck: Luck)
    requires store != []
  {
    Answers(lease, store, luck) && lease.generation != Now(store) && lease.requested != {}
  }

  /** What a refresh leaves: what the store gives now, what was there, or nothing. */
  ghost predicate RefreshedTo(lease: Lease, store: seq<Scopes>, luck: Luck, granted: Scopes, generation: nat, ok: bool)
    requires store != []
  {
    var later := store + luck.meanwhile;
    && (ok <==> Answers(lease, store, luck))
    && (if Rechecks(lease, store, luck) then granted == later[Now(later)] * lease.requested && generation == Now(later)
        else generation == if lease.active && luck.storeAnswers then Now(store) else lease.generation)
    && (ok && !Rechecks(lease, store, luck) ==> granted == lease.granted)
    && (!ok ==> granted == {})
  }

  /** What completing an authorization leaves: what the store gives now of all that was ever asked for, or an ended lease. */
  ghost predicate AuthorizedTo(lease: Lease, store: seq<Scopes>, extra: Scopes, luck: Luck, after: Lease, ok: bool)
    requires store != []
  {
    var later := store + luck.meanwhile;
    && after.requested == lease.requested + extra && after.active == ok
    && (ok <==> lease.active && luck.identityHolds
                && (if lease.requested + extra == {} then luck.storeAnswers else luck.checkAnswers))
    && (if ok then after.granted == later[Now(later)] * (lease.requested + extra) && after.generation == Now(later)
        else after.granted == {} && after.generation == lease.generation)
  }

  /** A session's step leaves the lease so, and the session with what the lease holds. */
  lemma RefreshesExactly(s: State, k: nat, luck: Luck)
    requires Enabled(s, Refreshes(k, luck))
    ensures var t := Next(s, Refreshes(k, luck));
      && RefreshedTo(s.lease, s.store, luck, t.lease.granted, t.lease.generation, Answers(s.lease, s.store, luck))
      && t.lease.active == s.lease.active && t.lease.requested == s.lease.requested && t.store == s.store + luck.meanwhile
      && t.sessions[k] == Session(t.lease.granted, t.lease.generation, s.sessions[k].operation)
      && |t.sessions| == |s.sessions| && forall j :: 0 <= j < |s.sessions| && j != k ==> t.sessions[j] == s.sessions[j]
  {
  }

  lemma AuthorizesExactly(s: State, k: nat, extra: Scopes, luck: Luck)
    requires Enabled(s, Authorizes(k, extra, luck))
    ensures var t := Next(s, Authorizes(k, extra, luck));
      && AuthorizedTo(s.lease, s.store, extra, luck, t.lease, t.lease.active) && t.store == s.store + luck.meanwhile
      && t.sessions[k] == Session(t.lease.granted, t.lease.generation, s.sessions[k].operation)
      && |t.sessions| == |s.sessions| && forall j :: 0 <= j < |s.sessions| && j != k ==> t.sessions[j] == s.sessions[j]
  {
  }

  /** An operation is admitted exactly when nothing fails and its scope is among what the refresh leaves, at the generation that leaves. */
  lemma BeginsExactly(s: State, k: nat, scope: Scopes, luck: Luck)
    requires Enabled(s, Begins(k, scope, luck))
    ensures var t := Next(s, Begins(k, scope, luck));
      && RefreshedTo(s.lease, s.store, luck, t.lease.granted, t.lease.generation, Answers(s.lease, s.store, luck))
      && (t.sessions[k].operation.Some? <==> Answers(s.lease, s.store, luck) && scope <= t.lease.granted)
      && (t.sessions[k].operation.Some? ==> t.sessions[k].operation.value == Operation(scope, t.lease.generation))
      && t.sessions[k].granted == t.lease.granted && t.sessions[k].generation == t.lease.generation
  {
  }

  // ----- when the cache is what the store gave -----------------------------------------------------

  /** A refresh that fails empties the cache; the last of a run that did, unless everything was asked for again since. */
  ghost predicate Starved(s: State, steps: seq<Step>, starved: bool)
    decreases |steps|
  {
    if steps == [] then starved
    else Enabled(s, steps[0]) && Starved(Next(s, steps[0]), steps[1..], StarvedBy(s, steps[0], starved))
  }

  predicate StarvedBy(s: State, step: Step, starved: bool)
    requires Enabled(s, step)
  {
    match step
    case Refreshes(_, luck) => !Rechecks(s.lease, s.store, luck) && (starved || !Answers(s.lease, s.store, luck))
    case Begins(_, _, luck) => !Rechecks(s.lease, s.store, luck) && (starved || !Answers(s.lease, s.store, luck))
    case Ends(_, luck) => !Rechecks(s.lease, s.store, luck) && (starved || !Answers(s.lease, s.store, luck))
    case Authorizes(_, _, _) => false
    case _ => starved
  }

  /** The cache is the store's answer at the generation it notes, to all that was asked for, or nothing at all. */
  ghost predicate Exact(s: State, starved: bool) {
    s.lease.active ==>
      && s.lease.generation < |s.store|
      && s.lease.granted == if starved then {} else s.store[s.lease.generation] * s.lease.requested
  }

  lemma RefreshExact(s: State, luck: Luck, starved: bool, t: State)
    requires Exact(s, starved) && s.store != [] && Sound(s)
    requires t.store == s.store + luck.meanwhile && t.lease.active == s.lease.active && t.lease.requested == s.lease.requested
    requires RefreshedTo(s.lease, s.store, luck, t.lease.granted, t.lease.generation, Answers(s.lease, s.store, luck))
    ensures Exact(t, !Rechecks(s.lease, s.store, luck) && (starved || !Answers(s.lease, s.store, luck)))
  {
    if s.lease.active && Answers(s.lease, s.store, luck) && !Rechecks(s.lease, s.store, luck) {
      assert s.lease.requested == {} || s.lease.generation == Now(s.store);
    }
  }

  lemma NextExact(s: State, step: Step, starved: bool)
    requires Sound(s) && Enabled(s, step) && Exact(s, starved)
    ensures Exact(Next(s, step), StarvedBy(s, step, starved))
  {
    hide Sound, RefreshedTo, Rechecks, Answers;
    var t := Next(s, step);
    match step {
      case Refreshes(k, luck) =>
        RefreshesExactly(s, k, luck);
        RefreshExact(s, luck, starved, t);
      case Begins(k, scope, luck) =>
        BeginsExactly(s, k, scope, luck);
        RefreshExact(s, luck, starved, t);
      case Ends(k, luck) =>
        RefreshesExactly(s, k, luck);
        RefreshExact(s, luck, starved, t);
      case _ =>
    }
  }

  lemma {:induction false} StepsExact(s: State, steps: seq<Step>, last: State, starved: bool)
    requires Sound(s) && Exact(s, starved) && Runs(s, steps, last)
    ensures Exact(last, Starved(s, steps, starved))
    decreases |steps|
  {
    hide Sound, Enabled, Next, Exact, StarvedBy;
    if steps != [] {
      NextSound(s, steps[0]);
      NextExact(s, steps[0], starved);
      StepsExact(Next(s, steps[0]), steps[1..], last, StarvedBy(s, steps[0], starved));
    }
  }

  /**
   * Over every run of a new lease: while it is active it holds exactly what the
   * store gave of all that was asked for, at the generation it notes, unless a
   * refresh failed and nothing has been asked for again since; then it holds
   * nothing.
   */
  lemma CacheExactly(store: seq<Scopes>, requested: Scopes, steps: seq<Step>, s: State)
    requires store != [] && Runs(Start(store, requested), steps, s)
    ensures s.lease.active ==>
      && s.lease.generation < |s.store|
      && s.lease.granted ==
           if Starved(Start(store, requested), steps, false) then {} else s.store[s.lease.generation] * s.lease.requested
  {
    hide Runs, Starved;
    StartSound(store, requested);
    StepsExact(Start(store, requested), steps, s, false);
  }

  const SMOOTH := Luck(true, true, true, [])

  /** One identity check that fails, and the lease holds nothing however often it refreshes, although the store never changed. */
  lemma StarvedThoughGiven(scope: nat) returns (s: State)
    ensures Runs(Start([{scope}], {scope}), [Joins, Refreshes(0, SMOOTH.(identityHolds := false))], s)
    ensures s.lease.active && s.store == [{scope}] && Enabled(s, Refreshes(0, SMOOTH))
    ensures var t := Next(s, Refreshes(0, SMOOTH));
      Answers(s.lease, s.store, SMOOTH) && t.lease == s.lease && t.lease.granted == {} && t.store == s.store
  {
    var start := Start([{scope}], {scope});
    var first, second := Joins, Refreshes(0, SMOOTH.(identityHolds := false));
    var joined := Next(start, first);
    s := Next(joined, second);
    assert [first, second][1..] == [second] && [second][1..] == [];
    assert s.store == [{scope}] && joined.store == [{scope}];
    assert Runs(s, [], s);
    assert Runs(joined, [second], s);
  }

  // ----- the lease in memory ------------------------------------------------------------------------

  class LeaseRecord {
    var active: bool
    var requested: Scopes
    var granted: Scopes
    var generation: nat

    function Value(): (l: Lease)
      reads this
    {
      Lease(active, requested, granted, generation)
    }

    constructor (requested: Scopes, granted: Scopes, generation: nat)
      ensures Value() == Lease(true, requested, granted, generation)
    {
      active := true;
      this.requested, this.granted, this.generation := requested, granted, generation;
    }

    /** session_refresh, for a session with a lease: what is revoked, and whether the generation moved. */
    method Refresh(store: seq<Scopes>, luck: Luck) returns (ok: bool, changed: bool, revoked: Scopes)
      requires store != []
      modifies this
      ensures var r := RefreshLease(old(Value()), store, luck); Value() == r.lease && ok == r.ok && changed == r.changed
      ensures RefreshedTo(old(Value()), store, luck, granted, generation, ok)
      ensures active == old(active) && requested == old(requested)
      ensures changed <==> old(active) && luck.storeAnswers && old(generation) != |store| - 1
      ensures forall x :: x in revoked <==> x in old(granted) && x !in granted
    {
      var generation := this.generation;
      var granted := this.granted;
      ok := active && luck.storeAnswers;
      if ok {
        generation := |store| - 1;
        ok := luck.identityHolds;
      }
      changed := generation != this.generation;
      if ok && changed && requested != {} {
        ok := luck.checkAnswers;
        if ok {
          var later := store + luck.meanwhile;
          granted, generation := later[|later| - 1] * requested, |later| - 1;
        }
      }
      if !ok {
        granted := {};
      }
      revoked := this.granted - granted;
      this.generation, this.granted := generation, granted;
    }

    /** complete_authorization; status tells whether what was just asked for is granted. */
    method CompleteAuthorization(store: seq<Scopes>, extra: Scopes, luck: Luck) returns (ok: bool, all: bool)
      requires store != []
      modifies this
      ensures var r := AuthorizeLease(old(Value()), store, extra, luck); Value() == r.lease && ok == r.ok
      ensures AuthorizedTo(old(Value()), store, extra, luck, Value(), ok)
      ensures all <==> forall x :: x in extra ==> x in granted
    {
      requested := requested + extra;
      var granted: Scopes := {};
      var generation := this.generation;
      ok := active && luck.identityHolds;
      if ok {
        var later := store + luck.meanwhile;
        ok := if requested == {} then luck.storeAnswers else luck.checkAnswers;
        if ok {
          generation := |later| - 1;
          granted := later[|later| - 1] * requested;
        }
      }
      this.granted, this.generation := granted, generation;
      all := extra <= granted;
      if !ok {
        active := false;
      }
    }
  }
}

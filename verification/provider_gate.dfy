/**
  The single-permit, three-tier priority gate in front of the model provider.

  `Gate` is the whole concurrent state: the gate's own fields plus one `Call` for every
  `acquire` ever made, numbered in the order the calls queued.  Cancelling a task and
  running its `except` handler are two different steps, because asyncio marks the awaited
  future first and wakes the task later; every interleaving of the steps is a run.
 */
module ProviderGates {
  import opened Wrappers

  datatype Tier = Foreground | Freshness | Background

  datatype FutureState = Pending | Granted | Cancelled

  // A task waits in `await future`, then either holds the permit or has left for good.
  datatype Phase = Awaiting | Holding | Left

  datatype Call = Call(tier: Tier, future: FutureState, phase: Phase, cancelRequested: bool)

  /** The three FIFO queues of waiting calls, one for each tier. */
  datatype Waiters = Waiters(foreground: seq<nat>, freshness: seq<nat>, background: seq<nat>)
  {
    function At(t: Tier): seq<nat> {
      match t
      case Foreground => foreground
      case Freshness => freshness
      case Background => background
    }

    function Set(t: Tier, queue: seq<nat>): (w: Waiters)
      ensures forall t': Tier :: w.At(t') == if t' == t then queue else At(t')
    {
      match t
      case Foreground => this.(foreground := queue)
      case Freshness => this.(freshness := queue)
      case Background => this.(background := queue)
    }
  }

  datatype Gate = Gate(locked: bool, currentTier: Option<Tier>, waiters: Waiters, calls: seq<Call>, grants: seq<nat>)
  {
    function Queue(t: Tier): seq<nat> {
      waiters.At(t)
    }
  }

  datatype Event = Acquire(tier: Tier) | Cancel(call: nat) | Resume(call: nat) | Release(call: nat)

  const TIERS: seq<Tier> := [Foreground, Freshness, Background]

  const INITIAL := Gate(false, None, Waiters([], [], []), [], [])

  // ----- The gate's operations on values

  /** The tier the dispatch loop stops at: the first one, most urgent first, with a waiter. */
  function FirstWaiting(w: Waiters): (r: Option<Tier>)
    ensures r.None? ==> forall t: Tier :: w.At(t) == []
    ensures r.Some? ==> w.At(r.value) != []
  {
    if w.foreground != [] then Some(Foreground)
    else if w.freshness != [] then Some(Freshness)
    else if w.background != [] then Some(Background)
    else None
  }

  /** Marks a call's future granted, unless it is already done. */
  function Grant(calls: seq<Call>, i: nat): seq<Call> {
    if i < |calls| && calls[i].future.Pending? then calls[i := calls[i].(future := Granted)] else calls
  }

  /** Pops the head of a queue and locks; a future that is already done is locked for, not granted. */
  function Pop(g: Gate, t: Tier): Gate
    requires g.Queue(t) != []
  {
    var i := g.Queue(t)[0];
    Gate(true, Some(t), g.waiters.Set(t, g.Queue(t)[1..]), Grant(g.calls, i),
         if i < |g.calls| && g.calls[i].future.Pending? then g.grants + [i] else g.grants)
  }

  function Dispatch(g: Gate): Gate {
    if g.locked || FirstWaiting(g.waiters).None? then g else Pop(g, FirstWaiting(g.waiters).value)
  }

  function ReleasePermit(g: Gate): Gate {
    Dispatch(g.(locked := false, currentTier := None))
  }

  function Without(queue: seq<nat>, i: nat): seq<nat> {
    if queue == [] then [] else if queue[0] == i then queue[1..] else [queue[0]] + Without(queue[1..], i)
  }

  ghost predicate Enabled(g: Gate, e: Event) {
    match e
    case Acquire(_) => true
    case Cancel(i) => i < |g.calls| && g.calls[i].phase.Awaiting?
    case Resume(i) => i < |g.calls| && g.calls[i].phase.Awaiting? && !g.calls[i].future.Pending?
    case Release(i) => i < |g.calls| && g.calls[i].phase.Holding?
  }

  function Enqueue(g: Gate, t: Tier): Gate {
    g.(calls := g.calls + [Call(t, Pending, Awaiting, false)],
       waiters := g.waiters.Set(t, g.Queue(t) + [|g.calls|]))
  }

  function Leave(g: Gate, i: nat): Gate
    requires i < |g.calls|
  {
    g.(calls := g.calls[i := g.calls[i].(phase := Left)])
  }

  /** The `except CancelledError` handler: leave the queue, or hand an already granted permit on. */
  function HandleCancelled(g: Gate, i: nat): Gate
    requires i < |g.calls|
  {
    var t := g.calls[i].tier;
    var g' := Leave(g, i);
    if i in g.Queue(t) then
      g'.(waiters := g.waiters.Set(t, Without(g.Queue(t), i)))
    else if g.calls[i].future.Granted? then
      ReleasePermit(g')
    else
      g'
  }

  function MarkCancelled(c: Call): Call {
    c.(cancelRequested := true, future := if c.future.Pending? then Cancelled else c.future)
  }

  function Step(g: Gate, e: Event): Gate
    requires Enabled(g, e)
  {
    match e
    case Acquire(t) => Dispatch(Enqueue(g, t))
    case Cancel(i) => g.(calls := g.calls[i := MarkCancelled(g.calls[i])])
    case Resume(i) =>
      if g.calls[i].future.Granted? && !g.calls[i].cancelRequested then
        g.(calls := g.calls[i := g.calls[i].(phase := Holding)])
      else
        HandleCancelled(g, i)
    case Release(i) => ReleasePermit(Leave(g, i))
  }

  // ----- What every run keeps

  /** Granted the permit and not yet given it back. */
  ghost predicate Live(g: Gate, i: int) {
    0 <= i < |g.calls| && g.calls[i].future.Granted? && !g.calls[i].phase.Left?
  }

  ghost predicate Increasing(s: seq<nat>) {
    forall a, b | 0 <= a < b < |s| :: s[a] < s[b]
  }

  /** A queue holds, in order, calls of its own tier that still wait and were never granted. */
  ghost predicate QueueValid(calls: seq<Call>, t: Tier, queue: seq<nat>) {
    && Increasing(queue)
    && forall i | i in queue ::
         i < |calls| && calls[i].tier == t && calls[i].phase.Awaiting? && !calls[i].future.Granted?
  }

  ghost predicate CallValid(g: Gate, i: nat)
    requires i < |g.calls|
  {
    var c := g.calls[i];
    && (c.future.Pending? ==> i in g.Queue(c.tier))
    && (c.phase.Holding? ==> c.future.Granted?)
    && (c.future.Cancelled? ==> c.cancelRequested)
  }

  ghost predicate GrantsValid(g: Gate) {
    && (forall k | 0 <= k < |g.grants| :: g.grants[k] < |g.calls| && g.calls[g.grants[k]].future.Granted?)
    && (forall a, b | 0 <= a < b < |g.grants| && g.calls[g.grants[a]].tier == g.calls[g.grants[b]].tier ::
          g.grants[a] < g.grants[b])
    && (forall k, i | 0 <= k < |g.grants| && i in g.Queue(g.calls[g.grants[k]].tier) :: g.grants[k] < i)
  }

  /** The part of the invariant that does not speak of the permit. */
  ghost predicate WellFormed(g: Gate) {
    && (forall t: Tier :: QueueValid(g.calls, t, g.Queue(t)))
    && (forall i: nat | i < |g.calls| :: CallValid(g, i))
    && GrantsValid(g)
  }

  ghost predicate PermitValid(g: Gate) {
    && (forall i, j | Live(g, i) && Live(g, j) :: i == j)
    && (forall i | Live(g, i) :: g.locked && g.currentTier == Some(g.calls[i].tier))
    && (!g.locked ==> forall t: Tier :: g.Queue(t) == [])
    && (g.locked <==> g.currentTier.Some?)
  }

  ghost predicate Valid(g: Gate) {
    WellFormed(g) && PermitValid(g)
  }

  lemma QueuesInRange(g: Gate)
    requires WellFormed(g)
    ensures forall t: Tier, i | i in g.waiters.At(t) :: i < |g.calls|
  {
    forall t: Tier, i | i in g.waiters.At(t) ensures i < |g.calls| { assert QueueValid(g.calls, t, g.Queue(t)); }
  }

  lemma {:induction false} WithoutElements(queue: seq<nat>, i: nat)
    requires Increasing(queue)
    ensures Increasing(Without(queue, i))
    ensures forall j :: j in Without(queue, i) <==> j in queue && j != i
  {
    if queue != [] {
      var head, rest := queue[0], Without(queue[1..], i);
      assert queue == [head] + queue[1..];
      assert forall j | j in queue[1..] :: head < j;
      WithoutElements(queue[1..], i);
      if head != i {
        PrependSmaller(head, rest);
      }
    }
  }

  lemma PrependSmaller(head: nat, rest: seq<nat>)
    requires Increasing(rest) && forall j | j in rest :: head < j
    ensures Increasing([head] + rest)
  {
    assert forall k | 0 <= k < |rest| :: rest[k] in rest;
  }

  lemma AppendLarger(queue: seq<nat>, last: nat)
    requires Increasing(queue) && forall j | j in queue :: j < last
    ensures Increasing(queue + [last])
  {
    assert forall k | 0 <= k < |queue| :: queue[k] in queue;
  }

  /** The head of a valid queue comes before the rest of it. */
  lemma HeadFirst(queue: seq<nat>)
    requires queue != [] && Increasing(queue)
    ensures Increasing(queue[1..]) && queue[0] in queue
    ensures forall j | j in queue[1..] :: j in queue && queue[0] < j
  {
  }

  lemma PopKeepsValid(g: Gate, t: Tier)
    requires WellFormed(g) && g.Queue(t) != [] && forall i :: !Live(g, i)
    ensures Valid(Pop(g, t))
  {
    var g', i := Pop(g, t), g.Queue(t)[0];
    assert QueueValid(g.calls, t, g.Queue(t));
    HeadFirst(g.Queue(t));
    forall t': Tier ensures QueueValid(g'.calls, t', g'.Queue(t')) {
      assert QueueValid(g.calls, t', g.Queue(t'));
    }
    forall j: nat | j < |g'.calls| ensures CallValid(g', j) {
      assert CallValid(g, j);
      assert g.Queue(t) == [i] + g'.Queue(t);
    }
    GrantAppends(g, t);
    forall j | Live(g', j) ensures j == i { assert Live(g, j) || j == i; }
  }

  lemma GrantAppends(g: Gate, t: Tier)
    requires WellFormed(g) && g.Queue(t) != []
    ensures GrantsValid(Pop(g, t))
  {
    var g', i := Pop(g, t), g.Queue(t)[0];
    assert QueueValid(g.calls, t, g.Queue(t));
    HeadFirst(g.Queue(t));
    assert forall j: nat | j < |g.calls| :: g'.calls[j].tier == g.calls[j].tier;
    forall k, j | 0 <= k < |g'.grants| && j in g'.Queue(g'.calls[g'.grants[k]].tier) ensures g'.grants[k] < j {
      if k < |g.grants| {
        assert j in g.Queue(g.calls[g.grants[k]].tier);
      }
    }
  }

  lemma DispatchKeepsValid(g: Gate)
    requires WellFormed(g) && !g.locked && g.currentTier.None? && forall i :: !Live(g, i)
    ensures Valid(Dispatch(g))
  {
    if FirstWaiting(g.waiters).Some? {
      PopKeepsValid(g, FirstWaiting(g.waiters).value);
    }
  }

  /** Changing only the phase or the flag of one call that is in no queue. */
  lemma UpdateKeeps(g: Gate, i: nat, c: Call)
    requires WellFormed(g) && i < |g.calls|
    requires c.tier == g.calls[i].tier && c.future == g.calls[i].future && !c.future.Pending?
    requires c.phase.Holding? ==> c.future.Granted?
    requires c.future.Cancelled? ==> c.cancelRequested
    requires i in g.Queue(c.tier) ==> c.phase.Awaiting?
    ensures WellFormed(g.(calls := g.calls[i := c]))
  {
    var g' := g.(calls := g.calls[i := c]);
    forall t: Tier ensures QueueValid(g'.calls, t, g'.Queue(t)) {
      assert QueueValid(g.calls, t, g.Queue(t));
    }
    forall j: nat | j < |g'.calls| ensures CallValid(g', j) { assert CallValid(g, j); }
    SameGrantOrder(g, g');
  }

  /** The grant log stays in order while calls keep their tier and grant and the queues only shrink. */
  lemma SameGrantOrder(g: Gate, g': Gate)
    requires GrantsValid(g) && g'.grants == g.grants && |g'.calls| >= |g.calls|
    requires forall j: nat | j < |g.calls| ::
        g'.calls[j].tier == g.calls[j].tier && (g.calls[j].future.Granted? ==> g'.calls[j].future.Granted?)
    requires forall t: Tier, j | j in g'.Queue(t) :: j in g.Queue(t)
    ensures GrantsValid(g')
  {
    forall k, j | 0 <= k < |g.grants| && j in g'.Queue(g'.calls[g.grants[k]].tier) ensures g.grants[k] < j {
      assert j in g.Queue(g.calls[g.grants[k]].tier);
    }
  }

  /** The permit's part of the invariant carries over while the same calls are live. */
  lemma SamePermit(g: Gate, g': Gate)
    requires PermitValid(g) && g'.locked == g.locked && g'.currentTier == g.currentTier
    requires |g'.calls| == |g.calls|
    requires forall j: nat | j < |g.calls| :: g'.calls[j].tier == g.calls[j].tier && (Live(g', j) <==> Live(g, j))
    requires !g.locked ==> forall t: Tier :: g'.Queue(t) == g.Queue(t)
    ensures PermitValid(g')
  {
    forall j | Live(g', j) ensures g'.locked && g'.currentTier == Some(g'.calls[j].tier) {
      assert Live(g, j);
    }
    forall i, j | Live(g', i) && Live(g', j) ensures i == j { assert Live(g, i) && Live(g, j); }
  }

  lemma LiveIsNotQueued(g: Gate, i: nat)
    requires WellFormed(g) && i < |g.calls| && g.calls[i].future.Granted?
    ensures forall t: Tier :: i !in g.Queue(t)
  {
    forall t: Tier ensures i !in g.Queue(t) { assert QueueValid(g.calls, t, g.Queue(t)); }
  }

  lemma ReleaseKeepsValid(g: Gate, i: nat)
    requires Valid(g) && Live(g, i)
    ensures Valid(ReleasePermit(Leave(g, i)))
  {
    LiveIsNotQueued(g, i);
    UpdateKeeps(g, i, g.calls[i].(phase := Left));
    var g' := Leave(g, i);
    var free := g'.(locked := false, currentTier := None);
    assert WellFormed(free) by {
      forall t: Tier ensures QueueValid(free.calls, t, free.Queue(t)) { assert QueueValid(g'.calls, t, g'.Queue(t)); }
      forall j: nat | j < |free.calls| ensures CallValid(free, j) { assert CallValid(g', j); }
      SameGrantOrder(g', free);
    }
    forall j ensures !Live(free, j) { assert Live(free, j) ==> Live(g, j); }
    DispatchKeepsValid(free);
  }

  lemma EnqueueKeepsQueue(g: Gate, t: Tier, t': Tier)
    requires QueueValid(g.calls, t', g.Queue(t'))
    ensures QueueValid(Enqueue(g, t).calls, t', Enqueue(g, t).Queue(t'))
  {
    AppendLarger(g.Queue(t'), |g.calls|);
  }

  lemma EnqueueKeeps(g: Gate, t: Tier)
    requires WellFormed(g)
    ensures WellFormed(Enqueue(g, t))
    ensures forall j :: Live(Enqueue(g, t), j) <==> Live(g, j)
  {
    var g' := Enqueue(g, t);
    forall t': Tier ensures QueueValid(g'.calls, t', g'.Queue(t')) {
      assert QueueValid(g.calls, t', g.Queue(t'));
      EnqueueKeepsQueue(g, t, t');
    }
    forall j: nat | j < |g'.calls| ensures CallValid(g', j) {
      if j < |g.calls| { assert CallValid(g, j); }
    }
    EnqueueKeepsGrants(g, t);
  }

  lemma EnqueueKeepsGrants(g: Gate, t: Tier)
    requires GrantsValid(g)
    ensures GrantsValid(Enqueue(g, t))
  {
    var g' := Enqueue(g, t);
    assert forall j: nat | j < |g.calls| :: g'.calls[j] == g.calls[j];
    forall k, i | 0 <= k < |g'.grants| && i in g'.Queue(g'.calls[g'.grants[k]].tier) ensures g'.grants[k] < i {
      assert i in g.Queue(g.calls[g.grants[k]].tier) || i == |g.calls|;
    }
  }

  lemma RemoveKeepsValid(g: Gate, i: nat)
    requires Valid(g) && i < |g.calls| && i in g.Queue(g.calls[i].tier) && !g.calls[i].future.Pending?
    ensures Valid(HandleCancelled(g, i))
  {
    var t, g' := g.calls[i].tier, HandleCancelled(g, i);
    assert QueueValid(g.calls, t, g.Queue(t));
    WithoutElements(g.Queue(t), i);
    forall t': Tier ensures QueueValid(g'.calls, t', g'.Queue(t')) {
      assert QueueValid(g.calls, t', g.Queue(t'));
    }
    forall j: nat | j < |g'.calls| ensures CallValid(g', j) { assert CallValid(g, j); }
    SameGrantOrder(g, g');
    SamePermit(g, g');
  }

  lemma CancelKeepsValid(g: Gate, i: nat)
    requires Valid(g) && i < |g.calls| && g.calls[i].phase.Awaiting?
    ensures Valid(Step(g, Cancel(i)))
  {
    var g' := Step(g, Cancel(i));
    forall t: Tier ensures QueueValid(g'.calls, t, g'.Queue(t)) { assert QueueValid(g.calls, t, g.Queue(t)); }
    forall j: nat | j < |g'.calls| ensures CallValid(g', j) { assert CallValid(g, j); }
    SameGrantOrder(g, g');
    SamePermit(g, g');
  }

  /** Every step of every interleaving keeps the gate's invariant. */
  lemma StepKeepsValid(g: Gate, e: Event)
    requires Valid(g) && Enabled(g, e)
    ensures Valid(Step(g, e))
  {
    match e
    case Acquire(t) =>
      EnqueueKeeps(g, t);
      if !g.locked { DispatchKeepsValid(Enqueue(g, t)); }
    case Cancel(i) => CancelKeepsValid(g, i);
    case Resume(i) =>
      var c := g.calls[i];
      if i in g.Queue(c.tier) {
        assert QueueValid(g.calls, c.tier, g.Queue(c.tier));
        RemoveKeepsValid(g, i);
      } else if c.future.Granted? && c.cancelRequested {
        ReleaseKeepsValid(g, i);
      } else {
        var c' := c.(phase := if c.future.Granted? then Holding else Left);
        assert CallValid(g, i);
        UpdateKeeps(g, i, c');
        SamePermit(g, Step(g, e));
      }
    case Release(i) =>
      assert CallValid(g, i);
      ReleaseKeepsValid(g, i);
  }

  // ----- Runs

  ghost predicate Legal(g: Gate, events: seq<Event>)
    requires Valid(g)
    decreases |events|
  {
    events == [] ||
    (Enabled(g, events[0]) && (StepKeepsValid(g, events[0]); Legal(Step(g, events[0]), events[1..])))
  }

  ghost function Run(g: Gate, events: seq<Event>): Gate
    requires Valid(g) && Legal(g, events)
    decreases |events|
  {
    if events == [] then g else StepKeepsValid(g, events[0]); Run(Step(g, events[0]), events[1..])
  }

  /** Safety of every run: one live grant at most, and a free gate has nobody waiting. */
  lemma {:induction false} RunIsSafe(g: Gate, events: seq<Event>)
    requires Valid(g) && Legal(g, events)
    ensures Valid(Run(g, events))
    ensures var g' := Run(g, events);
            && (forall i, j | Live(g', i) && Live(g', j) :: i == j)
            && (!g'.locked ==> forall t: Tier :: g'.Queue(t) == [])
            && (forall i | Live(g', i) :: g'.locked && g'.currentTier == Some(g'.calls[i].tier))
    decreases |events|
  {
    if events != [] {
      StepKeepsValid(g, events[0]);
      RunIsSafe(Step(g, events[0]), events[1..]);
    }
  }

  // ----- The permit: conserved exactly when dispatch never pops a cancelled waiter

  /** A locked gate has somebody who will release it. */
  ghost predicate Healthy(g: Gate) {
    g.locked ==> exists i :: Live(g, i)
  }

  /** The step gives the permit back: a release, or a cancelled waiter that was granted meanwhile. */
  ghost predicate FreesPermit(g: Gate, e: Event)
    requires Enabled(g, e)
  {
    e.Release? || (e.Resume? && g.calls[e.call].future.Granted? && g.calls[e.call].cancelRequested)
  }

  /** The next waiter to be popped has been cancelled, but its task has not yet run its handler. */
  ghost predicate NextIsCancelled(g: Gate) {
    match FirstWaiting(g.waiters)
    case None => false
    case Some(t) => var i := g.Queue(t)[0]; i < |g.calls| && g.calls[i].future.Cancelled?
  }

  /** The guard that fails: the permit is freed while the next waiter is already cancelled. */
  ghost predicate DropsPermit(g: Gate, e: Event)
    requires Enabled(g, e)
  {
    FreesPermit(g, e) && NextIsCancelled(g)
  }

  lemma FreeingDispatch(g: Gate, i: nat)
    requires Valid(g) && Live(g, i)
    ensures Healthy(ReleasePermit(Leave(g, i))) <==> !NextIsCancelled(g)
  {
    LiveIsNotQueued(g, i);
    var free := Leave(g, i).(locked := false, currentTier := None);
    forall j ensures !Live(free, j) { assert Live(free, j) ==> Live(g, j); }
    var first := FirstWaiting(g.waiters);
    if first.Some? {
      var head := g.Queue(first.value)[0];
      assert QueueValid(g.calls, first.value, g.Queue(first.value)) && head in g.Queue(first.value);
      assert CallValid(g, head);
      if g.calls[head].future.Cancelled? {
        forall j ensures !Live(Dispatch(free), j) { assert Live(Dispatch(free), j) ==> Live(free, j); }
      } else {
        assert Live(Dispatch(free), head);
      }
    }
  }

  lemma FreshCallerIsGranted(g: Gate, t: Tier)
    requires Valid(g) && !g.locked
    ensures Healthy(Step(g, Acquire(t)))
  {
    var g' := Enqueue(g, t);
    assert g.Queue(t) == [];
    forall t': Tier | t' != t ensures g'.waiters.At(t') == [] { assert g.Queue(t') == []; }
    assert FirstWaiting(g'.waiters) == Some(t);
    assert Live(Step(g, Acquire(t)), |g.calls|);
  }

  /** With the permit in good hands, and whoever holds it not involved, it stays in good hands. */
  lemma OthersKeepPermit(g: Gate, e: Event)
    requires Valid(g) && g.locked && Healthy(g) && Enabled(g, e) && !FreesPermit(g, e)
    ensures Healthy(Step(g, e))
  {
    var i :| Live(g, i);
    assert e.Acquire? ==> Step(g, e) == Enqueue(g, e.tier);
    assert Live(Step(g, e), i);
  }

  lemma StepConservesPermit(g: Gate, e: Event)
    requires Valid(g) && Healthy(g) && Enabled(g, e)
    ensures Healthy(Step(g, e)) <==> !DropsPermit(g, e)
  {
    if FreesPermit(g, e) {
      assert CallValid(g, e.call);
      LiveIsNotQueued(g, e.call);
      FreeingDispatch(g, e.call);
    } else if e.Acquire? && !g.locked {
      FreshCallerIsGranted(g, e.tier);
    } else if g.locked {
      OthersKeepPermit(g, e);
    }
  }

  /** A lost permit stays lost: nobody can release it, so no step grants anything. */
  lemma LostStepStaysLost(g: Gate, e: Event)
    requires Valid(g) && !Healthy(g) && Enabled(g, e)
    ensures !Healthy(Step(g, e)) && Step(g, e).grants == g.grants
  {
    var g' := Step(g, e);
    if e.Release? || e.Resume? {
      assert !Live(g, e.call) && CallValid(g, e.call);
    }
    forall i ensures !Live(g', i) { assert !Live(g, i); }
  }

  lemma {:induction false} LostIsForever(g: Gate, events: seq<Event>)
    requires Valid(g) && !Healthy(g) && Legal(g, events)
    ensures !Healthy(Run(g, events)) && Run(g, events).grants == g.grants
    decreases |events|
  {
    if events != [] {
      StepKeepsValid(g, events[0]);
      LostStepStaysLost(g, events[0]);
      LostIsForever(Step(g, events[0]), events[1..]);
    }
  }

  ghost predicate NeverDrops(g: Gate, events: seq<Event>)
    requires Valid(g) && Legal(g, events)
    decreases |events|
  {
    events == [] ||
    (!DropsPermit(g, events[0]) && (StepKeepsValid(g, events[0]); NeverDrops(Step(g, events[0]), events[1..])))
  }

  /** Over whole runs the permit survives if and only if no dispatch popped a cancelled waiter. */
  lemma {:induction false} PermitConserved(g: Gate, events: seq<Event>)
    requires Valid(g) && Healthy(g) && Legal(g, events)
    ensures Healthy(Run(g, events)) <==> NeverDrops(g, events)
    decreases |events|
  {
    if events != [] {
      StepKeepsValid(g, events[0]);
      StepConservesPermit(g, events[0]);
      if DropsPermit(g, events[0]) {
        LostIsForever(Step(g, events[0]), events[1..]);
      } else {
        PermitConserved(Step(g, events[0]), events[1..]);
      }
    }
  }

  ghost function LosingRun(): seq<Event> {
    [Acquire(Background), Acquire(Foreground), Resume(0), Cancel(1), Release(0), Resume(1)]
  }

  /** The gate after the first k events of the losing run. */
  ghost function LosingState(k: nat): Gate {
    var held := Call(Background, Granted, Holding, false);
    var gone := held.(phase := Left);
    var none := Waiters([], [], []);
    match k
    case 0 => INITIAL
    case 1 => Gate(true, Some(Background), none, [held.(phase := Awaiting)], [0])
    case 2 => Gate(true, Some(Background), Waiters([1], [], []),
                   [held.(phase := Awaiting), Call(Foreground, Pending, Awaiting, false)], [0])
    case 3 =>
      Gate(true, Some(Background), Waiters([1], [], []), [held, Call(Foreground, Pending, Awaiting, false)], [0])
    case 4 =>
      Gate(true, Some(Background), Waiters([1], [], []), [held, Call(Foreground, Cancelled, Awaiting, true)], [0])
    case 5 => Gate(true, Some(Foreground), none, [gone, Call(Foreground, Cancelled, Awaiting, true)], [0])
    case _ => Gate(true, Some(Foreground), none, [gone, Call(Foreground, Cancelled, Left, true)], [0])
  }

  lemma LosingStep(k: nat)
    requires k < 6
    ensures Enabled(LosingState(k), LosingRun()[k]) && Step(LosingState(k), LosingRun()[k]) == LosingState(k + 1)
  {
  }

  /** A run is legal and ends where the states listed beside its events say. */
  lemma {:induction false} FollowStates(states: seq<Gate>, events: seq<Event>)
    requires |states| == |events| + 1 && Valid(states[0])
    requires forall k | 0 <= k < |events| ::
               Enabled(states[k], events[k]) && Step(states[k], events[k]) == states[k + 1]
    ensures Legal(states[0], events) && Run(states[0], events) == states[|events|]
    decreases |events|
  {
    if events != [] {
      StepKeepsValid(states[0], events[0]);
      FollowStates(states[1..], events[1..]);
    }
  }

  lemma LostAtEnd(g: Gate, later: seq<Event>)
    requires Valid(g) && g == LosingState(6)
    ensures g.locked && forall i :: !Live(g, i)
    ensures Legal(g, later) ==> Run(g, later).locked && Run(g, later).grants == [0]
  {
    if Legal(g, later) {
      LostIsForever(g, later);
    }
  }

  /**
    The run that loses the permit: the waiter's future is marked cancelled, the holder releases,
    dispatch pops that waiter and locks, and the waiter's handler sees a cancelled future and
    leaves.  Whatever happens afterwards, nobody is ever granted again.
   */
  lemma PermitCanBeLost(later: seq<Event>)
    ensures Valid(INITIAL) && Legal(INITIAL, LosingRun())
    ensures var end := Run(INITIAL, LosingRun());
            && Valid(end) && end.locked && (forall i :: !Live(end, i))
            && (Legal(end, later) ==> Run(end, later).locked && Run(end, later).grants == [0])
  {
    InitialIsValid();
    var states := seq(7, k requires k >= 0 => LosingState(k));
    forall k | 0 <= k < 6
      ensures Enabled(states[k], LosingRun()[k]) && Step(states[k], LosingRun()[k]) == states[k + 1]
    {
      LosingStep(k);
    }
    FollowStates(states, LosingRun());
    RunIsSafe(INITIAL, LosingRun());
    LostAtEnd(states[6], later);
  }

  lemma InitialIsValid()
    ensures Valid(INITIAL)
  {
    forall t: Tier ensures INITIAL.Queue(t) == [] { match t case Foreground => case Freshness => case Background => }
  }

  // ----- Strict priority and first-in first-out order

  /** The last grant went to the earliest caller of its tier while no more urgent caller waited. */
  ghost predicate LastGrantMostUrgent(g: Gate) {
    && g.grants != [] && g.grants[|g.grants| - 1] < |g.calls|
    && var i := g.grants[|g.grants| - 1];
       var t := g.calls[i].tier;
       && (t.Freshness? || t.Background? ==> g.Queue(Foreground) == [])
       && (t.Background? ==> g.Queue(Freshness) == [])
       && (forall j | j in g.Queue(t) :: i < j)
  }

  lemma DispatchIsMostUrgent(g: Gate)
    requires forall t: Tier :: QueueValid(g.calls, t, g.Queue(t))
    requires Dispatch(g).grants != g.grants
    ensures LastGrantMostUrgent(Dispatch(g))
    ensures |Dispatch(g).grants| == |g.grants| + 1 && Dispatch(g).grants[..|g.grants|] == g.grants
  {
    var t := FirstWaiting(g.waiters).value;
    assert QueueValid(g.calls, t, g.Queue(t));
    HeadFirst(g.Queue(t));
  }

  /** In every run each new grant is the most urgent one, and the log of grants only grows. */
  lemma GrantIsMostUrgent(g: Gate, e: Event)
    requires Valid(g) && Enabled(g, e) && Step(g, e).grants != g.grants
    ensures LastGrantMostUrgent(Step(g, e))
    ensures |Step(g, e).grants| == |g.grants| + 1 && Step(g, e).grants[..|g.grants|] == g.grants
  {
    if e.Acquire? {
      EnqueueKeeps(g, e.tier);
      DispatchIsMostUrgent(Enqueue(g, e.tier));
    } else {
      assert CallValid(g, e.call);
      LiveIsNotQueued(g, e.call);
      var g' := Leave(g, e.call).(locked := false, currentTier := None);
      forall t: Tier ensures QueueValid(g'.calls, t, g'.Queue(t)) { assert QueueValid(g.calls, t, g.Queue(t)); }
      DispatchIsMostUrgent(g');
    }
  }

  ghost function EnqueuedIn(calls: seq<Call>, t: Tier): seq<nat>
  {
    if calls == [] then []
    else EnqueuedIn(calls[..|calls| - 1], t) + if calls[|calls| - 1].tier == t then [|calls| - 1] else []
  }

  ghost function GrantedIn(calls: seq<Call>, grants: seq<nat>, t: Tier): seq<nat>
    requires forall k | 0 <= k < |grants| :: grants[k] < |calls|
  {
    if grants == [] then []
    else GrantedIn(calls, grants[..|grants| - 1], t) +
         if calls[grants[|grants| - 1]].tier == t then [grants[|grants| - 1]] else []
  }

  ghost predicate IsSubsequence(s: seq<nat>, of: seq<nat>)
    decreases |of|
  {
    s == [] ||
    (of != [] &&
     if s[|s| - 1] == of[|of| - 1] then IsSubsequence(s[..|s| - 1], of[..|of| - 1])
     else IsSubsequence(s, of[..|of| - 1]))
  }

  lemma {:induction false} EnqueuedElements(calls: seq<Call>, t: Tier)
    ensures forall i: nat :: i in EnqueuedIn(calls, t) <==> i < |calls| && calls[i].tier == t
    ensures Increasing(EnqueuedIn(calls, t))
  {
    if calls != [] {
      EnqueuedElements(calls[..|calls| - 1], t);
      var before := EnqueuedIn(calls[..|calls| - 1], t);
      assert forall k | 0 <= k < |before| :: before[k] in before;
    }
  }

  lemma {:induction false} GrantedElements(calls: seq<Call>, grants: seq<nat>, t: Tier)
    requires forall k | 0 <= k < |grants| :: grants[k] < |calls|
    requires forall a, b | 0 <= a < b < |grants| && calls[grants[a]].tier == calls[grants[b]].tier ::
               grants[a] < grants[b]
    ensures Increasing(GrantedIn(calls, grants, t))
    ensures forall i | i in GrantedIn(calls, grants, t) :: i in grants && i < |calls| && calls[i].tier == t
  {
    if grants != [] {
      var rest := grants[..|grants| - 1];
      GrantedElements(calls, rest, t);
      var before := GrantedIn(calls, rest, t);
      assert forall k | 0 <= k < |before| :: before[k] in before;
    }
  }

  lemma {:induction false} IncreasingSubsetIsSubsequence(s: seq<nat>, of: seq<nat>)
    requires Increasing(s) && Increasing(of)
    requires forall i | i in s :: i in of
    ensures IsSubsequence(s, of)
    decreases |of|
  {
    if s != [] {
      var last := s[|s| - 1];
      assert last in s;
      assert of == of[..|of| - 1] + [of[|of| - 1]];
      if last == of[|of| - 1] {
        forall k | 0 <= k < |s| - 1 ensures s[k] in of[..|of| - 1] {
          assert s[k] in s && s[k] < last;
        }
        IncreasingSubsetIsSubsequence(s[..|s| - 1], of[..|of| - 1]);
      } else {
        forall i | i in s ensures i in of[..|of| - 1] {
          var k :| 0 <= k < |of| && of[k] == last;
          assert last < of[|of| - 1] && i <= last;
        }
        IncreasingSubsetIsSubsequence(s, of[..|of| - 1]);
      }
    }
  }

  /** Per tier, in every run, the grants come in the order the callers queued. */
  lemma GrantsAreFifo(events: seq<Event>, t: Tier)
    requires Valid(INITIAL) && Legal(INITIAL, events)
    ensures var g := Run(INITIAL, events);
            && (forall k | 0 <= k < |g.grants| :: g.grants[k] < |g.calls|)
            && IsSubsequence(GrantedIn(g.calls, g.grants, t), EnqueuedIn(g.calls, t))
  {
    var g := Run(INITIAL, events);
    RunIsSafe(INITIAL, events);
    GrantedElements(g.calls, g.grants, t);
    EnqueuedElements(g.calls, t);
    IncreasingSubsetIsSubsequence(GrantedIn(g.calls, g.grants, t), EnqueuedIn(g.calls, t));
  }

  // ----- What each call of the gate does to its fields

  ghost predicate MoreUrgent(t: Tier, t': Tier) {
    (t.Foreground? && !t'.Foreground?) || (t.Freshness? && t'.Background?)
  }

  ghost predicate IsNext(w: Waiters, t: Tier) {
    w.At(t) != [] && forall t': Tier | MoreUrgent(t', t) :: w.At(t') == []
  }

  /** Call `i` is now `c`; no other call has changed. */
  ghost predicate OnlyCall(calls: seq<Call>, calls': seq<Call>, i: nat, c: Call) {
    && i < |calls'| == |calls| && calls'[i] == c
    && forall j: nat | j < |calls| && j != i :: calls'[j] == calls[j]
  }

  /** A new caller of a free gate is granted at once; of a locked one it waits behind the others of its tier. */
  ghost predicate Queued(g: Gate, g': Gate, t: Tier) {
    && |g'.calls| == |g.calls| + 1 && (forall j: nat | j < |g.calls| :: g'.calls[j] == g.calls[j])
    && g'.calls[|g.calls|] == Call(t, if g.locked then Pending else Granted, Awaiting, false)
    && g'.locked && g'.currentTier == (if g.locked then g.currentTier else Some(t))
    && g'.grants == (if g.locked then g.grants else g.grants + [|g.calls|])
    && forall t': Tier ::
         g'.Queue(t') == if t' == t && g.locked then g.Queue(t') + [|g.calls|] else g.Queue(t')
  }

  /** Every more urgent queue is empty and `t` loses its head, which is granted unless it is cancelled already. */
  ghost predicate TakesHead(g: Gate, g': Gate, t: Tier)
    requires g.Queue(t) != []
  {
    var head := g.Queue(t)[0];
    && g'.locked && g'.currentTier == Some(t)
    && (forall t': Tier :: g'.Queue(t') == if t' == t then g.Queue(t)[1..] else g.Queue(t'))
    && head < |g.calls| && var c := g.calls[head];
    && OnlyCall(g.calls, g'.calls, head, Call(c.tier, if c.future.Pending? then Granted else c.future, c.phase,
                                              c.cancelRequested))
    && g'.grants == if c.future.Pending? then g.grants + [head] else g.grants
  }

  ghost predicate NobodyWaits(w: Waiters) {
    forall t: Tier :: w.At(t) == []
  }

  /** The permit goes to the head of the most urgent queue, or the gate is free when nobody waits. */
  ghost predicate HandsOn(g: Gate, g': Gate) {
    && (forall t: Tier | IsNext(g.waiters, t) :: TakesHead(g, g', t))
    && (NobodyWaits(g.waiters) ==>
          !g'.locked && g'.currentTier.None? && g'.waiters == g.waiters && g'.calls == g.calls && g'.grants == g.grants)
  }

  /** What the handler of a cancelled waiter does to its queue, its call being gone. */
  ghost predicate LeavesQueue(g: Gate, g': Gate, i: nat)
    requires i < |g.calls|
  {
    && g'.locked == g.locked && g'.currentTier == g.currentTier && g'.grants == g.grants
    && Increasing(g'.Queue(g.calls[i].tier))
    && forall t: Tier, j :: j in g'.Queue(t) <==> j in g.Queue(t) && j != i
  }

  /** A woken task holds the permit, or hands on one it has no use for, or leaves its queue. */
  ghost predicate Woken(g: Gate, g': Gate, i: nat)
    requires i < |g.calls|
  {
    var c := g.calls[i];
    if c.future.Granted? && !c.cancelRequested then
      && OnlyCall(g.calls, g'.calls, i, Call(c.tier, Granted, Holding, false))
      && g'.locked == g.locked && g'.currentTier == g.currentTier && g'.waiters == g.waiters && g'.grants == g.grants
    else if c.future.Granted? then
      HandsOn(g.(calls := g.calls[i := Call(c.tier, Granted, Left, true)]), g')
    else
      OnlyCall(g.calls, g'.calls, i, Call(c.tier, Cancelled, Left, true)) && LeavesQueue(g, g', i)
  }

  lemma AcquireQueues(g: Gate, t: Tier)
    requires Valid(g)
    ensures Queued(g, Step(g, Acquire(t)), t)
  {
    if !g.locked {
      var g' := Enqueue(g, t);
      assert g.Queue(t) == [];
      forall t': Tier | t' != t ensures g'.waiters.At(t') == [] { assert g.Queue(t') == []; }
      assert FirstWaiting(g'.waiters) == Some(t);
    }
  }

  lemma DispatchHandsOn(g: Gate)
    requires !g.locked && g.currentTier.None? && forall t: Tier, i | i in g.waiters.At(t) :: i < |g.calls|
    ensures HandsOn(g, Dispatch(g))
  {
    forall t: Tier | IsNext(g.waiters, t) ensures TakesHead(g, Dispatch(g), t) {
      OnlyNext(g.waiters, t);
      assert g.Queue(t)[0] in g.waiters.At(t);
    }
    if NobodyWaits(g.waiters) {
      assert g.Queue(Foreground) == g.Queue(Freshness) == g.Queue(Background) == [];
    }
  }

  lemma ReleaseHandsOn(g: Gate, e: Event)
    requires Valid(g) && Enabled(g, e) && FreesPermit(g, e)
    ensures HandsOn(g.(calls := g.calls[e.call := g.calls[e.call].(phase := Left)]), Step(g, e))
  {
    assert CallValid(g, e.call);
    LiveIsNotQueued(g, e.call);
    QueuesInRange(g);
    var left, g' := Leave(g, e.call), Step(g, e);
    var free := left.(locked := false, currentTier := None);
    DispatchHandsOn(free);
    forall t: Tier | IsNext(left.waiters, t) ensures TakesHead(left, g', t) { assert TakesHead(free, g', t); }
  }

  lemma OnlyNext(w: Waiters, t: Tier)
    requires IsNext(w, t)
    ensures FirstWaiting(w) == Some(t)
  {
    if !t.Foreground? { assert MoreUrgent(Foreground, t); }
    if t.Background? { assert MoreUrgent(Freshness, t); }
  }

  lemma ResumeWakes(g: Gate, i: nat)
    requires Valid(g) && Enabled(g, Resume(i))
    ensures Woken(g, Step(g, Resume(i)), i)
  {
    var c, g' := g.calls[i], Step(g, Resume(i));
    assert CallValid(g, i);
    if c.future.Granted? {
      if c.cancelRequested { ReleaseHandsOn(g, Resume(i)); }
    } else {
      forall t: Tier ensures Increasing(g.Queue(t)) && (i in g.Queue(t) ==> t == c.tier) {
        assert QueueValid(g.calls, t, g.Queue(t));
      }
      WithoutElements(g.Queue(c.tier), i);
    }
  }

  // ----- The gate object

  /** The gate with its fields updated in place, beside the futures and tasks of the event loop. */
  class ProviderGate {
    var locked: bool
    var currentTier: Option<Tier>
    var waiters: Waiters
    var calls: seq<Call>
    ghost var grants: seq<nat>

    ghost function State(): Gate
      reads this
    {
      Gate(locked, currentTier, waiters, calls, grants)
    }

    constructor ()
      ensures State() == INITIAL
    {
      locked, currentTier, waiters, calls, grants := false, None, Waiters([], [], []), [], [];
    }

    method DispatchNext()
      requires forall t: Tier, i | i in waiters.At(t) :: i < |calls|
      modifies this
      ensures State() == Dispatch(old(State()))
      ensures old(locked) ==> State() == old(State())
    {
      if locked {
        return;
      }
      for k := 0 to |TIERS|
        invariant State() == old(State())
        invariant k > 0 ==> waiters.foreground == []
        invariant k > 1 ==> waiters.freshness == []
        invariant k > 2 ==> waiters.background == []
      {
        var tier := TIERS[k];
        var queue := waiters.At(tier);
        if queue == [] {
          continue;
        }
        assert FirstWaiting(waiters) == Some(tier);
        var call := queue[0];
        assert call in queue;
        waiters := waiters.Set(tier, queue[1..]);
        locked, currentTier := true, Some(tier);
        if calls[call].future.Pending? {
          calls := calls[call := calls[call].(future := Granted)];
          grants := grants + [call];
        }
        return;
      }
    }

    method Acquire(tier: Tier) returns (call: nat)
      requires Valid(State())
      modifies this
      ensures State() == Step(old(State()), Event.Acquire(tier))
      ensures Valid(State()) && call == |old(calls)| && Queued(old(State()), State(), tier)
    {
      EnqueueKeeps(State(), tier);
      StepKeepsValid(State(), Event.Acquire(tier));
      AcquireQueues(State(), tier);
      call := |calls|;
      calls := calls + [Call(tier, Pending, Awaiting, false)];
      waiters := waiters.Set(tier, waiters.At(tier) + [call]);
      QueuesInRange(State());
      DispatchNext();
    }

    method ReleaseGate()
      requires forall t: Tier, i | i in waiters.At(t) :: i < |calls|
      modifies this
      ensures State() == ReleasePermit(old(State()))
    {
      currentTier, locked := None, false;
      DispatchNext();
    }

    /** The holder's `finally` block. */
    method Release(call: nat)
      requires Valid(State()) && Enabled(State(), Event.Release(call))
      modifies this
      ensures Valid(State()) && State() == Step(old(State()), Event.Release(call))
      ensures HandsOn(old(State()).(calls := old(calls)[call := old(calls)[call].(phase := Left)]), State())
    {
      StepKeepsValid(State(), Event.Release(call));
      ReleaseHandsOn(State(), Event.Release(call));
      QueuesInRange(State());
      calls := calls[call := calls[call].(phase := Left)];
      ReleaseGate();
    }

    /** The event loop runs a task whose future is done. */
    method Resume(call: nat) returns (acquired: bool)
      requires Valid(State()) && Enabled(State(), Event.Resume(call))
      modifies this
      ensures Valid(State()) && State() == Step(old(State()), Event.Resume(call))
      ensures Woken(old(State()), State(), call) && (acquired <==> calls[call].phase.Holding?)
      ensures acquired <==> old(calls)[call].future.Granted? && !old(calls)[call].cancelRequested
    {
      StepKeepsValid(State(), Event.Resume(call));
      ResumeWakes(State(), call);
      ghost var before := State();
      acquired := calls[call].future.Granted? && !calls[call].cancelRequested;
      if acquired {
        calls := calls[call := calls[call].(phase := Holding)];
        return;
      }
      QueuesInRange(State());
      var tier, granted := calls[call].tier, calls[call].future.Granted?;
      calls := calls[call := calls[call].(phase := Left)];
      if call in waiters.At(tier) {
        waiters := waiters.Set(tier, Without(waiters.At(tier), call));
      } else if granted {
        ReleaseGate();
      }
      assert State() == HandleCancelled(before, call);
    }

    /** `task.cancel()`: a pending future is marked at once, a granted one only when the task wakes. */
    method Cancel(call: nat)
      requires Valid(State()) && Enabled(State(), Event.Cancel(call))
      modifies this`calls
      ensures Valid(State()) && State() == Step(old(State()), Event.Cancel(call))
      ensures var c := old(calls)[call];
              OnlyCall(old(calls), calls, call,
                       Call(c.tier, if c.future.Pending? then Cancelled else c.future, Awaiting, true))
    {
      StepKeepsValid(State(), Event.Cancel(call));
      var c := calls[call];
      calls := calls[call := c.(cancelRequested := true, future := if c.future.Pending? then Cancelled else c.future)];
    }
  }
}

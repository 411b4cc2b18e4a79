/**
  Extraction batches: messages are grouped, attempted, failed and completed while messages keep
  arriving and processes are killed, and a drain loop works the batches off.

  Messages are never deleted, so a message's position is its id and its order of arrival.
 */
module ExtractionDrain {
  import opened Wrappers
  import opened Chunking
  import opened Sorting

  const MAX_EXTRACTION_ATTEMPTS := 5

  datatype State = Pending | Failed | Completed

  datatype Message = Message(batch: Option<nat>, state: State, attempts: nat)

  /** `failures` counts the failures recorded per batch; `inFlight` is the batch whose model call runs. */
  datatype Store = Store(messages: seq<Message>, failures: seq<nat>, inFlight: Option<nat>)

  const EMPTY := Store([], [], None)

  // ----- What the statements do to the rows

  /** The messages that a request to batch `ids` really takes. */
  function Batchable(messages: seq<Message>, ids: set<nat>): set<nat> {
    set i | i in ids && i < |messages| && messages[i].batch.None? && !messages[i].state.Completed?
  }

  function Batched(messages: seq<Message>, ids: set<nat>, b: nat): seq<Message> {
    seq(|messages|, i requires 0 <= i < |messages| => if i in ids then messages[i].(batch := Some(b)) else messages[i])
  }

  predicate Unfinished(m: Message, b: nat) {
    m.batch == Some(b) && !m.state.Completed?
  }

  function Marked(messages: seq<Message>, b: nat): seq<Message> {
    seq(|messages|, i requires 0 <= i < |messages| =>
          if Unfinished(messages[i], b) then messages[i].(attempts := messages[i].attempts + 1, state := Pending)
          else messages[i])
  }

  function MarkedFailed(messages: seq<Message>, b: nat): seq<Message> {
    seq(|messages|, i requires 0 <= i < |messages| =>
          if Unfinished(messages[i], b) then messages[i].(state := Failed) else messages[i])
  }

  function MarkedCompleted(messages: seq<Message>, b: nat): seq<Message> {
    seq(|messages|, i requires 0 <= i < |messages| =>
          if messages[i].batch == Some(b) then messages[i].(state := Completed) else messages[i])
  }

  // ----- Eligibility

  predicate Exhausted(m: Message) {
    m.state.Failed? && m.attempts >= MAX_EXTRACTION_ATTEMPTS
  }

  ghost predicate InBatch(messages: seq<Message>, i: nat, b: nat) {
    i < |messages| && messages[i].batch == Some(b)
  }

  ghost predicate Eligible(messages: seq<Message>, b: nat) {
    exists i: nat :: InBatch(messages, i, b) && !messages[i].state.Completed? && !Exhausted(messages[i])
  }

  ghost function EligibleBatches(s: Store): set<nat> {
    set b: nat | b < |s.failures| && Eligible(s.messages, b)
  }

  // ----- Events

  datatype Event =
    | Record
    | CreateBatch(ids: set<nat>)
    | Mark(batch: nat)
    | Fail
    | Apply
    | Kill

  /** One worker per space: an attempt starts only on an eligible batch while none is in flight. */
  ghost function Step(s: Store, e: Event): Store {
    match e
    case Record => s.(messages := s.messages + [Message(None, Pending, 0)])
    case CreateBatch(ids) =>
      var taken := Batchable(s.messages, ids);
      if taken == {} then s
      else s.(messages := Batched(s.messages, taken, |s.failures|), failures := s.failures + [0])
    case Mark(b) =>
      if s.inFlight.None? && b in EligibleBatches(s) then s.(messages := Marked(s.messages, b), inFlight := Some(b))
      else s
    case Fail =>
      if s.inFlight.Some? && s.inFlight.value < |s.failures| then
        var b := s.inFlight.value;
        Store(MarkedFailed(s.messages, b), s.failures[b := s.failures[b] + 1], None)
      else s
    case Apply =>
      if s.inFlight.Some? then s.(messages := MarkedCompleted(s.messages, s.inFlight.value), inFlight := None) else s
    case Kill => s.(inFlight := None)
  }

  ghost function Run(s: Store, events: seq<Event>): Store
    decreases |events|
  {
    if events == [] then s else Run(Step(s, events[0]), events[1..])
  }

  // ----- Invariants

  /** The messages of a batch share attempts and state, and a recorded failure was an attempt. */
  ghost predicate BatchValid(s: Store, b: nat)
    requires b < |s.failures|
  {
    && (exists i: nat :: InBatch(s.messages, i, b))
    && (forall i: nat, j: nat | InBatch(s.messages, i, b) && InBatch(s.messages, j, b) ::
          s.messages[i].attempts == s.messages[j].attempts && s.messages[i].state == s.messages[j].state)
    && (forall i: nat | InBatch(s.messages, i, b) ::
          FailuresBounded(s.messages[i], s.failures[b], s.inFlight == Some(b)))
  }

  ghost predicate FailuresBounded(m: Message, failures: nat, inFlight: bool) {
    && failures <= m.attempts
    && failures <= MAX_EXTRACTION_ATTEMPTS
    && (m.state.Pending? ==> failures < MAX_EXTRACTION_ATTEMPTS)
    && (inFlight ==> m.state.Pending? && failures < m.attempts)
  }

  ghost predicate Valid(s: Store) {
    && (forall i: nat | i < |s.messages| ::
          match s.messages[i].batch
          case Some(b) => b < |s.failures|
          case None => s.messages[i] == Message(None, Pending, 0))
    && (forall b: nat | b < |s.failures| :: BatchValid(s, b))
    && (s.inFlight.Some? ==> s.inFlight.value < |s.failures|)
  }

  /** A message stays in its batch, its attempts only grow and completion is final. */
  ghost predicate MessageEvolves(m: Message, m': Message) {
    && (m.batch.Some? ==> m'.batch == m.batch)
    && m.attempts <= m'.attempts
    && (m.state.Completed? ==> m' == m)
  }

  ghost predicate Evolves(s: Store, s': Store) {
    && |s.messages| <= |s'.messages| && |s.failures| <= |s'.failures|
    && (forall i: nat | i < |s.messages| :: MessageEvolves(s.messages[i], s'.messages[i]))
    && (forall b: nat | b < |s.failures| :: s.failures[b] <= s'.failures[b])
  }

  lemma ABatchMessage(s: Store, b: nat) returns (i: nat)
    requires Valid(s) && b < |s.failures|
    ensures InBatch(s.messages, i, b)
  {
    assert BatchValid(s, b);
    i :| InBatch(s.messages, i, b);
  }

  ghost predicate SameMessages(s: Store, s': Store, b: nat) {
    && (forall i: nat :: InBatch(s'.messages, i, b) <==> InBatch(s.messages, i, b))
    && (forall i: nat | InBatch(s.messages, i, b) :: i < |s'.messages| && s'.messages[i] == s.messages[i])
  }

  /** A batch none of whose messages change stays as valid as it was. */
  lemma UntouchedBatch(s: Store, s': Store, b: nat)
    requires b < |s.failures| && b < |s'.failures| && BatchValid(s, b)
    requires s'.failures[b] == s.failures[b] && (s'.inFlight == Some(b) ==> s.inFlight == Some(b))
    requires SameMessages(s, s', b)
    ensures BatchValid(s', b)
  {
    var i: nat :| InBatch(s.messages, i, b);
    assert InBatch(s'.messages, i, b);
    forall j: nat | InBatch(s'.messages, j, b)
      ensures FailuresBounded(s'.messages[j], s'.failures[b], s'.inFlight == Some(b)) {
      assert FailuresBounded(s.messages[j], s.failures[b], s.inFlight == Some(b));
    }
  }

  lemma RecordKeeps(s: Store)
    requires Valid(s)
    ensures Valid(Step(s, Record)) && Evolves(s, Step(s, Record))
  {
    var s' := Step(s, Record);
    forall b: nat | b < |s'.failures| ensures BatchValid(s', b) {
      UntouchedBatch(s, s', b);
    }
  }

  lemma CreateBatchKeeps(s: Store, ids: set<nat>)
    requires Valid(s)
    ensures Valid(Step(s, CreateBatch(ids))) && Evolves(s, Step(s, CreateBatch(ids)))
  {
    var taken := Batchable(s.messages, ids);
    if taken != {} { BatchedKeeps(s, taken); }
  }

  lemma BatchedKeeps(s: Store, taken: set<nat>)
    requires Valid(s) && taken != {} && forall i | i in taken :: i < |s.messages| && s.messages[i].batch.None?
    ensures var s' := s.(messages := Batched(s.messages, taken, |s.failures|), failures := s.failures + [0]);
            Valid(s') && Evolves(s, s')
  {
    var s' := s.(messages := Batched(s.messages, taken, |s.failures|), failures := s.failures + [0]);
    forall b: nat | b < |s.failures| ensures BatchValid(s', b) {
      assert BatchValid(s, b);
      UntouchedBatch(s, s', b);
    }
    NewBatch(s, taken);
  }

  lemma NewBatch(s: Store, taken: set<nat>)
    requires Valid(s) && taken != {} && forall i | i in taken :: i < |s.messages| && s.messages[i].batch.None?
    ensures BatchValid(s.(messages := Batched(s.messages, taken, |s.failures|), failures := s.failures + [0]),
              |s.failures|)
  {
    var s', b := s.(messages := Batched(s.messages, taken, |s.failures|), failures := s.failures + [0]), |s.failures|;
    var first :| first in taken;
    assert InBatch(s'.messages, first, b);
    forall i: nat | InBatch(s'.messages, i, b) ensures i in taken && s'.messages[i] == Message(Some(b), Pending, 0) {
      assert match s.messages[i].batch
             case Some(c) => c < |s.failures|
             case None => s.messages[i] == Message(None, Pending, 0);
    }
  }

  /** What the attempt's statements do: they touch one batch, and all its messages alike. */
  lemma AttemptKeeps(s: Store, e: Event, b: nat)
    requires Valid(s) && (e.Mark? || e.Fail? || e.Apply? || e.Kill?) && b < |s.failures|
    ensures BatchValid(Step(s, e), b)
  {
    var s' := Step(s, e);
    var i := ABatchMessage(s, b);
    assert BatchValid(s, b) && InBatch(s'.messages, i, b);
    assert forall j: nat :: InBatch(s'.messages, j, b) <==> InBatch(s.messages, j, b);
    forall j: nat | InBatch(s'.messages, j, b)
      ensures FailuresBounded(s'.messages[j], s'.failures[b], s'.inFlight == Some(b)) {
      assert FailuresBounded(s.messages[j], s.failures[b], s.inFlight == Some(b));
      if e.Mark? && s' != s && b == e.batch { EligibleMessage(s, b, j); }
    }
  }

  lemma EligibleMessage(s: Store, b: nat, j: nat)
    requires Valid(s) && b in EligibleBatches(s) && InBatch(s.messages, j, b)
    ensures !s.messages[j].state.Completed? && !Exhausted(s.messages[j])
  {
    assert BatchValid(s, b);
    var k: nat :| InBatch(s.messages, k, b) && !s.messages[k].state.Completed? && !Exhausted(s.messages[k]);
    assert s.messages[j].state == s.messages[k].state && s.messages[j].attempts == s.messages[k].attempts;
  }

  lemma StepKeepsValid(s: Store, e: Event)
    requires Valid(s)
    ensures Valid(Step(s, e)) && Evolves(s, Step(s, e))
  {
    match e
    case Record => RecordKeeps(s);
    case CreateBatch(ids) => CreateBatchKeeps(s, ids);
    case _ =>
      forall b: nat | b < |s.failures| ensures BatchValid(Step(s, e), b) {
        AttemptKeeps(s, e, b);
      }
  }

  /** In every run: one batch per message for good, a shared state per batch, at most five recorded failures. */
  lemma {:induction false} RunKeepsValid(s: Store, events: seq<Event>)
    requires Valid(s)
    ensures Valid(Run(s, events)) && Evolves(s, Run(s, events))
    ensures forall b: nat | b < |Run(s, events).failures| :: Run(s, events).failures[b] <= 5
    decreases |events|
  {
    if events == [] {
      forall b: nat | b < |s.failures| ensures s.failures[b] <= 5 {
        var i := ABatchMessage(s, b);
        assert BatchValid(s, b) && FailuresBounded(s.messages[i], s.failures[b], s.inFlight == Some(b));
      }
    } else {
      StepKeepsValid(s, events[0]);
      RunKeepsValid(Step(s, events[0]), events[1..]);
    }
  }

  /** A batch leaves the eligible ones only by a recorded failure or by completion: a killed attempt retires nothing. */
  lemma OnlyOutcomesRetire(s: Store, e: Event, b: nat)
    requires Valid(s) && b in EligibleBatches(s) && b !in EligibleBatches(Step(s, e))
    ensures (e.Fail? || e.Apply?) && s.inFlight == Some(b)
    ensures e.Fail? ==> forall i: nat | InBatch(s.messages, i, b) :: s.messages[i].attempts >= 5
  {
    var s' := Step(s, e);
    var i: nat :| InBatch(s.messages, i, b) && !s.messages[i].state.Completed? && !Exhausted(s.messages[i]);
    assert InBatch(s'.messages, i, b);
    assert BatchValid(s, b);
    assert s'.messages[i].state.Completed? || Exhausted(s'.messages[i]);
  }

  /** After a killed attempt the batch is still eligible, however often that has happened. */
  lemma KilledAttemptStaysEligible(s: Store, b: nat, between: seq<Event>)
    requires Valid(s) && s.inFlight.None? && b in EligibleBatches(s)
    requires forall e | e in between :: e.Record? || e.CreateBatch?
    ensures b in EligibleBatches(Step(Run(Step(s, Mark(b)), between), Kill))
  {
    var marked := Step(s, Mark(b));
    StepKeepsValid(s, Mark(b));
    if b !in EligibleBatches(marked) { OnlyOutcomesRetire(s, Mark(b), b); }
    IntakeRetiresNothing(marked, between, b);
    RunKeepsValid(marked, between);
    if b !in EligibleBatches(Step(Run(marked, between), Kill)) { OnlyOutcomesRetire(Run(marked, between), Kill, b); }
  }

  lemma {:induction false} IntakeRetiresNothing(s: Store, events: seq<Event>, b: nat)
    requires Valid(s) && b in EligibleBatches(s)
    requires forall e | e in events :: e.Record? || e.CreateBatch?
    ensures b in EligibleBatches(Run(s, events))
    decreases |events|
  {
    if events != [] {
      StepKeepsValid(s, events[0]);
      if b !in EligibleBatches(Step(s, events[0])) { OnlyOutcomesRetire(s, events[0], b); }
      IntakeRetiresNothing(Step(s, events[0]), events[1..], b);
    }
  }

  // ----- One attempt of the worker

  /** How the model call ends, and what arrives before and after the attempt is counted. */
  datatype Script = Script(succeeds: bool, early: seq<Event>, late: seq<Event>)

  ghost predicate Arrivals(events: seq<Event>) {
    forall e | e in events :: e.Record? || e.CreateBatch?
  }

  ghost predicate Quiet(events: seq<Event>) {
    forall e | e in events :: e.Record?
  }

  function AttemptOn(b: nat, script: Script): seq<Event> {
    script.early + [Mark(b)] + script.late + [if script.succeeds then Apply else Fail]
  }

  /** The batches that came into being between two states. */
  ghost function Created(s: Store, s': Store): set<nat> {
    set b: nat | b < |s'.failures| && IsBatch(s', b) && !IsBatch(s, b)
  }

  ghost predicate IsBatch(s: Store, b: nat) {
    b < |s.failures|
  }

  ghost predicate SpentBy(s: Store, b: nat, extra: nat) {
    exists i: nat :: InBatch(s.messages, i, b) && s.messages[i].attempts + extra >= MAX_EXTRACTION_ATTEMPTS
  }

  /** A failed attempt leaves its batch eligible unless it was the last allowed one. */
  ghost function Remaining(s: Store, b: nat, succeeds: bool): set<nat> {
    if succeeds || SpentBy(s, b, 1) then {} else {b}
  }

  lemma {:induction false} RunInTwoParts(s: Store, before: seq<Event>, after: seq<Event>)
    ensures Run(s, before + after) == Run(Run(s, before), after)
    decreases |before|
  {
    if before == [] {
      assert before + after == after;
    } else {
      assert (before + after)[1..] == before[1..] + after;
      RunInTwoParts(Step(s, before[0]), before[1..], after);
    }
  }

  lemma AttemptInParts(s: Store, b: nat, script: Script)
    ensures var marked := Step(Run(s, script.early), Mark(b));
            Run(s, AttemptOn(b, script)) == Step(Run(marked, script.late), if script.succeeds then Apply else Fail)
  {
    var outcome := if script.succeeds then Apply else Fail;
    RunInTwoParts(s, script.early + [Mark(b)] + script.late, [outcome]);
    RunInTwoParts(s, script.early + [Mark(b)], script.late);
    RunInTwoParts(s, script.early, [Mark(b)]);
  }

  lemma StepLeavesAlone(s: Store, e: Event, c: nat)
    requires Valid(s) && c < |s.failures|
    requires e.Mark? ==> e.batch != c
    requires e.Fail? || e.Apply? ==> s.inFlight != Some(c)
    ensures SameMessages(s, Step(s, e), c)
  {
  }

  lemma {:induction false} ArrivalsLeaveAlone(s: Store, events: seq<Event>, c: nat)
    requires Valid(s) && Arrivals(events) && c < |s.failures|
    ensures c < |Run(s, events).failures| && SameMessages(s, Run(s, events), c)
    decreases |events|
  {
    if events != [] {
      StepKeepsValid(s, events[0]);
      StepLeavesAlone(s, events[0], c);
      ArrivalsLeaveAlone(Step(s, events[0]), events[1..], c);
    }
  }

  lemma ArrivalKeeps(s: Store, e: Event)
    requires Valid(s) && (e.Record? || e.CreateBatch?)
    ensures Step(s, e).inFlight == s.inFlight
    ensures |s.failures| <= |Step(s, e).failures| <= |s.failures| + (if e.Record? then 0 else 1)
    ensures |Step(s, e).failures| > |s.failures| ==> Eligible(Step(s, e).messages, |s.failures|)
  {
    if |Step(s, e).failures| > |s.failures| {
      var taken := Batchable(s.messages, e.ids);
      var i :| i in taken;
      assert s.messages[i] == Message(None, Pending, 0);
      assert InBatch(Step(s, e).messages, i, |s.failures|);
    }
  }

  lemma {:induction false} ArrivalsKeep(s: Store, events: seq<Event>)
    requires Valid(s) && Arrivals(events)
    ensures Run(s, events).inFlight == s.inFlight && |s.failures| <= |Run(s, events).failures|
    ensures Quiet(events) ==> |Run(s, events).failures| == |s.failures|
    decreases |events|
  {
    if events != [] {
      StepKeepsValid(s, events[0]);
      ArrivalKeeps(s, events[0]);
      ArrivalsKeep(Step(s, events[0]), events[1..]);
    }
  }

  /** A batch that arrives is eligible, and nothing but an attempt could change that. */
  lemma {:induction false} ArrivalIsEligible(s: Store, events: seq<Event>, c: nat)
    requires Valid(s) && Arrivals(events) && |s.failures| <= c < |Run(s, events).failures|
    ensures c in EligibleBatches(Run(s, events))
    decreases |events|
  {
    if events != [] {
      var s' := Step(s, events[0]);
      StepKeepsValid(s, events[0]);
      ArrivalKeeps(s, events[0]);
      if c < |s'.failures| {
        IntakeRetiresNothing(s', events[1..], c);
      } else {
        ArrivalIsEligible(s', events[1..], c);
      }
    }
  }

  /** What one attempt does to the eligible batches, whatever arrives meanwhile. */
  lemma AttemptOutcome(s: Store, b: nat, script: Script)
    requires Valid(s) && s.inFlight.None? && b in EligibleBatches(s) && Arrivals(script.early) && Arrivals(script.late)
    ensures var s' := Run(s, AttemptOn(b, script));
            && Valid(s') && Evolves(s, s') && s'.inFlight.None?
            && EligibleBatches(s') == EligibleBatches(s) - {b} + Created(s, s') + Remaining(s, b, script.succeeds)
  {
    var s' := Run(s, AttemptOn(b, script));
    RunKeepsValid(s, AttemptOn(b, script));
    forall c: nat ensures c in EligibleBatches(s') <==>
        c in EligibleBatches(s) - {b} + Created(s, s') + Remaining(s, b, script.succeeds) {
      AttemptOutcomeFor(s, b, script, c);
    }
    var early, marked, late := AttemptPhases(s, b, script);
  }

  /** The states an attempt goes through. */
  lemma AttemptPhases(s: Store, b: nat, script: Script) returns (early: Store, marked: Store, late: Store)
    requires Valid(s) && s.inFlight.None? && b in EligibleBatches(s) && Arrivals(script.early) && Arrivals(script.late)
    ensures early == Run(s, script.early) && Valid(early) && b in EligibleBatches(early) && early.inFlight.None?
    ensures marked == Step(early, Mark(b)) && Valid(marked) && marked.inFlight == Some(b)
    ensures late == Run(marked, script.late) && Valid(late) && late.inFlight == Some(b)
    ensures Run(s, AttemptOn(b, script)) == Step(late, if script.succeeds then Apply else Fail)
    ensures |s.failures| <= |early.failures| == |marked.failures| <= |late.failures| ==
              |Run(s, AttemptOn(b, script)).failures|
  {
    AttemptInParts(s, b, script);
    early := Run(s, script.early);
    RunKeepsValid(s, script.early);
    ArrivalsKeep(s, script.early);
    IntakeRetiresNothing(s, script.early, b);
    marked := Step(early, Mark(b));
    StepKeepsValid(early, Mark(b));
    late := Run(marked, script.late);
    RunKeepsValid(marked, script.late);
    ArrivalsKeep(marked, script.late);
  }

  lemma AttemptOutcomeFor(s: Store, b: nat, script: Script, c: nat)
    requires Valid(s) && s.inFlight.None? && b in EligibleBatches(s) && Arrivals(script.early) && Arrivals(script.late)
    ensures var s' := Run(s, AttemptOn(b, script));
            c in EligibleBatches(s') <==>
              c in EligibleBatches(s) - {b} + Created(s, s') + Remaining(s, b, script.succeeds)
  {
    var early, marked, late := AttemptPhases(s, b, script);
    if c == b {
      AttemptedBatch(s, b, script);
    } else if c < |s.failures| {
      OtherBatch(s, b, script, c);
      SameEligible(s, Run(s, AttemptOn(b, script)), c);
    } else if c < |late.failures| {
      ArrivedBatch(s, b, script, c);
    }
  }

  lemma SameEligible(s: Store, s': Store, c: nat)
    requires SameMessages(s, s', c)
    ensures Eligible(s'.messages, c) <==> Eligible(s.messages, c)
  {
    if i: nat :| InBatch(s.messages, i, c) && !s.messages[i].state.Completed? && !Exhausted(s.messages[i]) {
      assert InBatch(s'.messages, i, c);
    }
    if i: nat :| InBatch(s'.messages, i, c) && !s'.messages[i].state.Completed? && !Exhausted(s'.messages[i]) {
      assert InBatch(s.messages, i, c);
    }
  }

  lemma SameTransitively(s: Store, s': Store, s'': Store, c: nat)
    requires SameMessages(s, s', c) && SameMessages(s', s'', c)
    ensures SameMessages(s, s'', c)
  {
    assert forall i: nat | InBatch(s.messages, i, c) :: InBatch(s'.messages, i, c) && s'.messages[i] == s.messages[i];
  }

  /** The other batches that were there before are left alone. */
  lemma OtherBatch(s: Store, b: nat, script: Script, c: nat)
    requires Valid(s) && s.inFlight.None? && b in EligibleBatches(s) && Arrivals(script.early) && Arrivals(script.late)
    requires c < |s.failures| && c != b
    ensures SameMessages(s, Run(s, AttemptOn(b, script)), c)
  {
    var early, marked, late := AttemptPhases(s, b, script);
    ArrivalsLeaveAlone(s, script.early, c);
    StepLeavesAlone(early, Mark(b), c);
    SameTransitively(s, early, marked, c);
    ArrivalsLeaveAlone(marked, script.late, c);
    SameTransitively(s, marked, late, c);
    StepLeavesAlone(late, if script.succeeds then Apply else Fail, c);
    SameTransitively(s, late, Run(s, AttemptOn(b, script)), c);
  }

  /** A batch created meanwhile is eligible when the attempt ends. */
  lemma ArrivedBatch(s: Store, b: nat, script: Script, c: nat)
    requires Valid(s) && s.inFlight.None? && b in EligibleBatches(s) && Arrivals(script.early) && Arrivals(script.late)
    requires |s.failures| <= c < |Run(s, AttemptOn(b, script)).failures|
    ensures c in EligibleBatches(Run(s, AttemptOn(b, script)))
  {
    var early, marked, late := AttemptPhases(s, b, script);
    if c < |early.failures| {
      ArrivalIsEligible(s, script.early, c);
      StepLeavesAlone(early, Mark(b), c);
      SameEligible(early, marked, c);
      IntakeRetiresNothing(marked, script.late, c);
    } else {
      ArrivalIsEligible(marked, script.late, c);
    }
    StepLeavesAlone(late, if script.succeeds then Apply else Fail, c);
    SameEligible(late, Run(s, AttemptOn(b, script)), c);
  }

  /** The attempted batch's messages are counted once and take the outcome. */
  lemma AttemptedMessage(s: Store, b: nat, script: Script, i: nat)
    requires Valid(s) && s.inFlight.None? && b in EligibleBatches(s) && Arrivals(script.early) && Arrivals(script.late)
    requires InBatch(s.messages, i, b)
    ensures var s' := Run(s, AttemptOn(b, script));
            i < |s'.messages| && s'.messages[i] ==
              Message(Some(b), if script.succeeds then Completed else Failed, s.messages[i].attempts + 1)
  {
    var early, marked, late := AttemptPhases(s, b, script);
    ArrivalsLeaveAlone(s, script.early, b);
    assert early.messages[i] == s.messages[i];
    EligibleMessage(early, b, i);
    assert InBatch(marked.messages, i, b);
    ArrivalsLeaveAlone(marked, script.late, b);
    assert late.messages[i] == marked.messages[i];
  }

  lemma AttemptedBatch(s: Store, b: nat, script: Script)
    requires Valid(s) && s.inFlight.None? && b in EligibleBatches(s) && Arrivals(script.early) && Arrivals(script.late)
    ensures b in EligibleBatches(Run(s, AttemptOn(b, script))) <==> b in Remaining(s, b, script.succeeds)
  {
    var s' := Run(s, AttemptOn(b, script));
    RunKeepsValid(s, AttemptOn(b, script));
    var i := ABatchMessage(s, b);
    AttemptedMessage(s, b, script, i);
    assert BatchValid(s, b) && InBatch(s'.messages, i, b);
    if b in EligibleBatches(s') { EligibleMessage(s', b, i); }
  }

  // ----- The work that is left

  /** Attempts a batch may still take when no process is killed. */
  ghost function Weight(s: Store, b: nat): (w: nat)
    ensures w > 0 <==> b in EligibleBatches(s)
  {
    if b in EligibleBatches(s) then
      var i: nat :| InBatch(s.messages, i, b) && !s.messages[i].state.Completed? && !Exhausted(s.messages[i]);
      AttemptsLeft(s.messages[i])
    else 0
  }

  function AttemptsLeft(m: Message): nat {
    if m.attempts + 1 >= MAX_EXTRACTION_ATTEMPTS then 1 else MAX_EXTRACTION_ATTEMPTS - m.attempts
  }

  ghost function Work(s: Store, n: nat): nat {
    if n == 0 then 0 else Work(s, n - 1) + Weight(s, n - 1)
  }

  lemma WeightOf(s: Store, b: nat, i: nat)
    requires Valid(s) && b in EligibleBatches(s) && InBatch(s.messages, i, b)
    ensures Weight(s, b) == AttemptsLeft(s.messages[i])
  {
    assert BatchValid(s, b);
  }

  lemma SameWeight(s: Store, s': Store, b: nat)
    requires Valid(s) && Valid(s') && b < |s.failures| && b < |s'.failures| && SameMessages(s, s', b)
    ensures Weight(s', b) == Weight(s, b)
  {
    SameEligible(s, s', b);
    if b in EligibleBatches(s) {
      var i := ABatchMessage(s, b);
      assert InBatch(s'.messages, i, b);
      WeightOf(s, b, i);
      WeightOf(s', b, i);
    }
  }

  lemma {:induction false} WorkDrops(s: Store, s': Store, n: nat, b: nat)
    requires forall c: nat | c < n && c != b :: Weight(s', c) == Weight(s, c)
    requires b < n ==> Weight(s', b) < Weight(s, b)
    ensures if b < n then Work(s', n) < Work(s, n) else Work(s', n) == Work(s, n)
  {
    if n > 0 { WorkDrops(s, s', n - 1, b); }
  }

  /** Every attempt uses up work, so only new batches keep a drain going. */
  lemma AttemptUsesUpWork(s: Store, b: nat, script: Script)
    requires Valid(s) && s.inFlight.None? && b in EligibleBatches(s) && Quiet(script.early) && Quiet(script.late)
    ensures var s' := Run(s, AttemptOn(b, script));
            |s'.failures| == |s.failures| && Work(s', |s'.failures|) < Work(s, |s.failures|)
  {
    var s' := Run(s, AttemptOn(b, script));
    var early, marked, late := AttemptPhases(s, b, script);
    ArrivalsKeep(s, script.early);
    ArrivalsKeep(marked, script.late);
    RunKeepsValid(s, AttemptOn(b, script));
    forall c: nat | c < |s.failures| && c != b ensures Weight(s', c) == Weight(s, c) {
      OtherBatch(s, b, script, c);
      SameWeight(s, s', c);
    }
    AttemptedBatch(s, b, script);
    var i := ABatchMessage(s, b);
    WeightOf(s, b, i);
    AttemptedMessage(s, b, script, i);
    if b in EligibleBatches(s') {
      assert InBatch(s'.messages, i, b);
      WeightOf(s', b, i);
    }
    WorkDrops(s, s', |s.failures|, b);
  }

  /** The attempt a drain ends with: on the only eligible batch there was. */
  ghost predicate LastAttempt(before: Store, b: nat, script: Script, after: Store) {
    Valid(before) && before.inFlight.None? && EligibleBatches(before) == {b}
    && after == Run(before, AttemptOn(b, script))
  }

  /** A drain ends without an eligible batch, or with an attempt on the only one. */
  ghost predicate Ended(before: Store, last: Option<nat>, script: Script, after: Store) {
    match last
    case None => EligibleBatches(after) == {}
    case Some(b) => LastAttempt(before, b, script, after)
  }

  /**
    A drain's last attempt saw one eligible batch; what is eligible after it arrived since, or is that batch
    itself.
   */
  lemma DrainEnds(s: Store, b: nat, script: Script)
    requires Valid(s) && s.inFlight.None? && EligibleBatches(s) == {b} && Arrivals(script.early)
             && Arrivals(script.late)
    ensures var s' := Run(s, AttemptOn(b, script));
            && EligibleBatches(s') == Created(s, s') + Remaining(s, b, script.succeeds)
            && (EligibleBatches(s') <= {b} <==> |s'.failures| == |s.failures|)
  {
    AttemptOutcome(s, b, script);
    var s' := Run(s, AttemptOn(b, script));
    if |s'.failures| > |s.failures| {
      assert IsBatch(s', |s.failures|) && |s.failures| in Created(s, s');
    }
  }

  const ONE_BATCH := Store([Message(Some(0), Pending, 0)], [0], None)

  lemma OneBatchIsReached()
    ensures Run(EMPTY, [Record, CreateBatch({0})]) == ONE_BATCH
    ensures Valid(ONE_BATCH) && EligibleBatches(ONE_BATCH) == {0}
  {
    var s1 := Step(EMPTY, Record);
    assert Batchable(s1.messages, {0}) == {0};
    assert Step(s1, CreateBatch({0})) == ONE_BATCH;
    assert [Record, CreateBatch({0})][1..] == [CreateBatch({0})];
    RunKeepsValid(EMPTY, [Record, CreateBatch({0})]);
    assert InBatch(ONE_BATCH.messages, 0, 0);
  }

  const LATE_BATCH := Script(true, [], [Record, CreateBatch({1})])

  lemma LateBatchIsCreated()
    ensures |Run(ONE_BATCH, AttemptOn(0, LATE_BATCH)).failures| == 2
  {
    OneBatchIsReached();
    var early, marked, late := AttemptPhases(ONE_BATCH, 0, LATE_BATCH);
    var recorded := Step(marked, Record);
    assert LATE_BATCH.late[1..] == [CreateBatch({1})];
    assert Batchable(recorded.messages, {1}) == {1};
  }

  /** A batch created during the last attempt stays behind: its trigger met a running drain and was dropped. */
  lemma BatchCreatedDuringTheLastAttemptStaysBehind()
    ensures Valid(ONE_BATCH) && EligibleBatches(ONE_BATCH) == {0}
    ensures EligibleBatches(Run(ONE_BATCH, AttemptOn(0, LATE_BATCH))) == {1}
  {
    OneBatchIsReached();
    LateBatchIsCreated();
    DrainEnds(ONE_BATCH, 0, LATE_BATCH);
    var s' := Run(ONE_BATCH, AttemptOn(0, LATE_BATCH));
    assert IsBatch(s', 1);
    assert Created(ONE_BATCH, s') == {1};
  }

  // ----- Reading what is pending

  /** One row of the worker's query: a batch, or the messages that have none. */
  datatype Group = Group(batch: Option<nat>, members: seq<nat>, attempts: nat, state: State)

  function AttemptsAt(messages: seq<Message>, i: nat): nat {
    if i < |messages| then messages[i].attempts else 0
  }

  function NeediestFirst(messages: seq<Message>): (nat, nat) -> bool {
    (i: nat, j: nat) =>
      || AttemptsAt(messages, i) < AttemptsAt(messages, j)
      || (AttemptsAt(messages, i) == AttemptsAt(messages, j) && i <= j)
  }

  function Incomplete(messages: seq<Message>): (r: seq<nat>)
    ensures forall i: nat :: i in r <==> i < |messages| && !messages[i].state.Completed?
  {
    if messages == [] then []
    else
      var last := |messages| - 1;
      var before := Incomplete(messages[..last]);
      if messages[last].state.Completed? then before else before + [last]
  }

  lemma {:induction false} IncompleteAscends(messages: seq<Message>)
    ensures Ascends(Incomplete(messages))
  {
    if messages != [] {
      var last := |messages| - 1;
      IncompleteAscends(messages[..last]);
      var before := Incomplete(messages[..last]);
      assert forall k | 0 <= k < |before| :: before[k] in before;
    }
  }

  ghost predicate Ascends(ids: seq<nat>) {
    forall i, j | 0 <= i < j < |ids| :: ids[i] < ids[j]
  }

  /** Fewer attempts, or as many and older. */
  ghost predicate Before(messages: seq<Message>, i: nat, j: nat) {
    i < |messages| && j < |messages| &&
    (messages[i].attempts < messages[j].attempts || (messages[i].attempts == messages[j].attempts && i < j))
  }

  /** The members of a group, and the groups by their first members, are in the order of the query. */
  ghost predicate InQueryOrder(messages: seq<Message>, groups: seq<Group>) {
    && (forall g: nat, x: nat, y: nat | g < |groups| && x < y < |groups[g].members| ::
          Before(messages, groups[g].members[x], groups[g].members[y]))
    && (forall g: nat, h: nat | g < h < |groups| && groups[g].members != [] && groups[h].members != [] ::
          Before(messages, groups[g].members[0], groups[h].members[0]))
  }

  ghost predicate MembersAmong(rows: seq<nat>, groups: seq<Group>) {
    forall g: nat, i | g < |groups| && i in groups[g].members :: i in rows
  }

  lemma AddRowKeepsOrder(messages: seq<Message>, rows: seq<nat>, groups: seq<Group>, i: nat)
    requires InQueryOrder(messages, groups) && MembersAmong(rows, groups) && i < |messages|
    requires forall g: nat | g < |groups| :: groups[g].members != []
    requires forall j | j in rows :: Before(messages, j, i)
    ensures InQueryOrder(messages, AddRow(messages, groups, i)) && MembersAmong(rows + [i], AddRow(messages, groups, i))
  {
    var groups', at := AddRow(messages, groups, i), GroupOf(groups, messages[i].batch);
    forall g: nat, x: nat, y: nat | g < |groups'| && x < y < |groups'[g].members|
      ensures Before(messages, groups'[g].members[x], groups'[g].members[y]) {
      if g < |groups| && y == |groups[g].members| {
        assert groups[g].members[x] in groups[g].members && groups[g].members[x] in rows;
      }
    }
    forall g: nat, h: nat | g < h < |groups'| && groups'[g].members != [] && groups'[h].members != []
      ensures Before(messages, groups'[g].members[0], groups'[h].members[0]) {
      assert groups[g].members[0] in groups[g].members && groups[g].members[0] in rows;
    }
    forall g: nat, j | g < |groups'| && j in groups'[g].members ensures j in rows + [i] {
      if g < |groups| && j != i { assert j in groups[g].members; }
    }
  }

  ghost predicate AllIncomplete(messages: seq<Message>, rows: seq<nat>) {
    forall i: nat :: i in rows <==> i < |messages| && !messages[i].state.Completed?
  }

  /** The unfinished rows as the query orders them: fewest attempts first, then oldest first. */
  function PendingRows(messages: seq<Message>): seq<nat> {
    Sort(Incomplete(messages), NeediestFirst(messages))
  }

  lemma PendingRowsInOrder(messages: seq<Message>)
    ensures AllIncomplete(messages, PendingRows(messages))
    ensures Sorted(PendingRows(messages), NeediestFirst(messages)) && Distinct(PendingRows(messages))
  {
    IncompleteAscends(messages);
    SortKeepsDistinct(Incomplete(messages), NeediestFirst(messages));
    SortIsPermutation(Incomplete(messages), NeediestFirst(messages));
    SortIsSorted(Incomplete(messages), NeediestFirst(messages));
  }

  lemma NextRow(messages: seq<Message>, rows: seq<nat>, k: nat)
    requires AllIncomplete(messages, rows) && Sorted(rows, NeediestFirst(messages)) && Distinct(rows) && k < |rows|
    ensures rows[k] < |messages| && !messages[rows[k]].state.Completed? && rows[..k + 1] == rows[..k] + [rows[k]]
    ensures k > 0 ==> rows[..k][k - 1] == rows[k - 1] && AttemptsAt(messages, rows[k - 1]) <= messages[rows[k]].attempts
    ensures forall j | j in rows[..k] :: Before(messages, j, rows[k])
  {
    assert rows[k] in rows;
    if k > 0 { assert NeediestFirst(messages)(rows[k - 1], rows[k]); }
    forall j | j in rows[..k] ensures Before(messages, j, rows[k]) {
      var x :| 0 <= x < k && rows[x] == j;
      assert rows[x] in rows && NeediestFirst(messages)(rows[x], rows[k]);
    }
  }

  function GroupOf(groups: seq<Group>, batch: Option<nat>): (r: Option<nat>)
    ensures r.Some? ==> r.value < |groups| && groups[r.value].batch == batch
    ensures r.None? ==> forall g | 0 <= g < |groups| :: groups[g].batch != batch
  {
    if groups == [] then None
    else if groups[|groups| - 1].batch == batch then Some(|groups| - 1)
    else GroupOf(groups[..|groups| - 1], batch)
  }

  ghost predicate GroupValid(messages: seq<Message>, g: Group) {
    && g.members != []
    && (forall i | i in g.members :: i < |messages| && messages[i].batch == g.batch && !messages[i].state.Completed?)
    && g.members[0] < |messages| && g.attempts == messages[g.members[0]].attempts
       && g.state == messages[g.members[0]].state
  }

  ghost predicate Covered(groups: seq<Group>, i: nat) {
    exists g: nat :: g < |groups| && i in groups[g].members
  }

  /** The groups of some rows: one per batch, with those rows that it has, neediest first. */
  ghost predicate Grouped(messages: seq<Message>, rows: seq<nat>, groups: seq<Group>) {
    && (forall g: nat | g < |groups| :: GroupValid(messages, groups[g]))
    && (forall g: nat, h: nat | g < h < |groups| ::
          groups[g].batch != groups[h].batch && groups[g].attempts <= groups[h].attempts)
    && (forall i: nat | i in rows :: Covered(groups, i))
    && (forall g: nat | g < |groups| ::
          groups[g].attempts <= if rows == [] then 0 else AttemptsAt(messages, rows[|rows| - 1]))
  }

  function AddRow(messages: seq<Message>, groups: seq<Group>, i: nat): seq<Group>
    requires i < |messages|
  {
    match GroupOf(groups, messages[i].batch)
    case Some(g) => groups[g := groups[g].(members := groups[g].members + [i])]
    case None => groups + [Group(messages[i].batch, [i], messages[i].attempts, messages[i].state)]
  }

  lemma AddRowKeeps(messages: seq<Message>, rows: seq<nat>, groups: seq<Group>, i: nat)
    requires Grouped(messages, rows, groups) && i < |messages| && !messages[i].state.Completed?
    requires rows != [] ==> AttemptsAt(messages, rows[|rows| - 1]) <= messages[i].attempts
    ensures Grouped(messages, rows + [i], AddRow(messages, groups, i))
  {
    var groups' := AddRow(messages, groups, i);
    var at := GroupOf(groups, messages[i].batch);
    var g := if at.Some? then at.value else |groups|;
    assert i in groups'[g].members;
    forall j: nat | j in rows ensures Covered(groups', j) {
      var h: nat :| h < |groups| && j in groups[h].members;
      assert j in groups'[h].members;
    }
    forall h: nat | h < |groups'| ensures GroupValid(messages, groups'[h]) {
      if h < |groups| { assert GroupValid(messages, groups[h]); }
    }
    assert rows + [i] != [] && (rows + [i])[|rows|] == i;
  }

  /** The worker's test on a group: as many attempts as allowed, and the last one failed. */
  predicate Spent(g: Group) {
    g.state.Failed? && g.attempts >= MAX_EXTRACTION_ATTEMPTS
  }

  ghost predicate Lists(groups: seq<Group>, g: nat, b: nat) {
    g < |groups| && groups[g].batch == Some(b) && !Spent(groups[g])
  }

  function EligibleIds(groups: seq<Group>): seq<nat> {
    if groups == [] then []
    else
      var before, g := EligibleIds(groups[..|groups| - 1]), groups[|groups| - 1];
      if g.batch.Some? && !Spent(g) then before + [g.batch.value] else before
  }

  lemma {:induction false} EligibleIdsAre(groups: seq<Group>, b: nat)
    ensures b in EligibleIds(groups) <==> exists g: nat :: Lists(groups, g, b)
  {
    if groups != [] {
      var last := |groups| - 1;
      EligibleIdsAre(groups[..last], b);
      if b in EligibleIds(groups[..last]) {
        var g: nat :| Lists(groups[..last], g, b);
        assert Lists(groups, g, b);
      } else if b in EligibleIds(groups) {
        assert Lists(groups, last, b);
      }
      if g: nat :| Lists(groups, g, b) {
        if g < last { assert Lists(groups[..last], g, b); }
      }
    }
  }

  lemma {:induction false} EligibleIdsDistinct(groups: seq<Group>)
    requires forall g: nat, h: nat | g < h < |groups| :: groups[g].batch != groups[h].batch
    ensures Distinct(EligibleIds(groups))
  {
    if groups != [] {
      var last := |groups| - 1;
      EligibleIdsDistinct(groups[..last]);
      if groups[last].batch.Some? { EligibleIdsAre(groups[..last], groups[last].batch.value); }
    }
  }

  lemma EligibleGroupFor(s: Store, rows: seq<nat>, groups: seq<Group>, b: nat)
    requires Valid(s) && Grouped(s.messages, rows, groups) && AllIncomplete(s.messages, rows)
    ensures b in EligibleIds(groups) <==> b in EligibleBatches(s)
  {
    EligibleIdsAre(groups, b);
    if b in EligibleIds(groups) {
      var g: nat :| Lists(groups, g, b);
      assert GroupValid(s.messages, groups[g]);
      assert InBatch(s.messages, groups[g].members[0], b);
    }
    if b in EligibleBatches(s) { EligibleIsListed(s, rows, groups, b); }
  }

  lemma EligibleIsListed(s: Store, rows: seq<nat>, groups: seq<Group>, b: nat)
    requires Valid(s) && Grouped(s.messages, rows, groups) && AllIncomplete(s.messages, rows) && b in EligibleBatches(s)
    ensures exists g: nat :: Lists(groups, g, b)
  {
    var i: nat :| InBatch(s.messages, i, b) && !s.messages[i].state.Completed? && !Exhausted(s.messages[i]);
    assert i in rows && Covered(groups, i);
    var g: nat :| g < |groups| && i in groups[g].members;
    assert GroupValid(s.messages, groups[g]);
    EligibleMessage(s, b, groups[g].members[0]);
    assert Lists(groups, g, b);
  }

  /** The worker's list names the eligible batches, each once. */
  lemma EligibleGroups(s: Store, rows: seq<nat>, groups: seq<Group>)
    requires Valid(s) && Grouped(s.messages, rows, groups) && AllIncomplete(s.messages, rows)
    ensures forall b: nat :: b in EligibleIds(groups) <==> b in EligibleBatches(s)
    ensures Distinct(EligibleIds(groups))
  {
    EligibleIdsDistinct(groups);
    forall b: nat ensures b in EligibleIds(groups) <==> b in EligibleBatches(s) {
      EligibleGroupFor(s, rows, groups, b);
    }
  }

  lemma {:induction false} FirstEligible(groups: seq<Group>) returns (g: nat)
    requires EligibleIds(groups) != []
    ensures g < |groups| && groups[g].batch == Some(EligibleIds(groups)[0])
    ensures forall h: nat | h < g :: groups[h].batch.None? || Spent(groups[h])
  {
    var last := |groups| - 1;
    if EligibleIds(groups[..last]) != [] {
      g := FirstEligible(groups[..last]);
      assert groups[..last][g] == groups[g];
    } else {
      g := last;
      forall h: nat | h < last ensures groups[h].batch.None? || Spent(groups[h]) {
        assert groups[..last][h] == groups[h];
        if groups[h].batch.Some? {
          EligibleIdsAre(groups[..last], groups[h].batch.value);
          assert !Lists(groups[..last], h, groups[h].batch.value);
        }
      }
    }
  }

  /** No eligible batch has had fewer attempts. */
  ghost predicate Neediest(s: Store, b: nat) {
    forall i: nat, j: nat, c: nat | InBatch(s.messages, i, b) && InBatch(s.messages, j, c) && c in EligibleBatches(s) ::
      s.messages[i].attempts <= s.messages[j].attempts
  }

  lemma FirstEligibleIsNeediest(s: Store, rows: seq<nat>, groups: seq<Group>)
    requires Valid(s) && Grouped(s.messages, rows, groups) && AllIncomplete(s.messages, rows)
             && EligibleIds(groups) != []
    ensures Neediest(s, EligibleIds(groups)[0])
  {
    var b := EligibleIds(groups)[0];
    var g := FirstEligible(groups);
    forall i: nat, j: nat, c: nat | InBatch(s.messages, i, b) && InBatch(s.messages, j, c) && c in EligibleBatches(s)
      ensures s.messages[i].attempts <= s.messages[j].attempts {
      var h := EligibleGroup(s, rows, groups, c);
      GroupAttempts(s, groups, g, b, i);
      GroupAttempts(s, groups, h, c, j);
      assert g == h || g < h;
    }
  }

  lemma EligibleGroup(s: Store, rows: seq<nat>, groups: seq<Group>, c: nat) returns (h: nat)
    requires Valid(s) && Grouped(s.messages, rows, groups) && AllIncomplete(s.messages, rows) && c in EligibleBatches(s)
    ensures Lists(groups, h, c)
  {
    EligibleGroupFor(s, rows, groups, c);
    EligibleIdsAre(groups, c);
    h :| Lists(groups, h, c);
  }

  lemma GroupAttempts(s: Store, groups: seq<Group>, g: nat, b: nat, i: nat)
    requires Valid(s) && g < |groups| && GroupValid(s.messages, groups[g]) && groups[g].batch == Some(b)
             && InBatch(s.messages, i, b)
    ensures groups[g].attempts == s.messages[i].attempts
  {
    var m := groups[g].members[0];
    assert m in groups[g].members && InBatch(s.messages, m, b) && BatchValid(s, b);
  }

  // ----- Forming batches

  /** Messages without a batch, oldest first. */
  function Unbatched(messages: seq<Message>): (r: seq<nat>)
    ensures forall i: nat :: i in r <==> i < |messages| && messages[i].batch.None? && !messages[i].state.Completed?
  {
    if messages == [] then []
    else
      var last := |messages| - 1;
      var before := Unbatched(messages[..last]);
      if messages[last].batch.None? && !messages[last].state.Completed? then before + [last] else before
  }

  lemma {:induction false} UnbatchedAscends(messages: seq<Message>)
    ensures Ascends(Unbatched(messages))
  {
    if messages != [] {
      var last := |messages| - 1;
      UnbatchedAscends(messages[..last]);
      var before := Unbatched(messages[..last]);
      assert forall k | 0 <= k < |before| :: before[k] in before;
    }
  }

  /** These are the messages that wait for a batch, oldest first. */
  ghost predicate InOrderOfArrival(messages: seq<Message>, ids: seq<nat>) {
    && Ascends(ids)
    && forall i: nat :: i in ids <==> i < |messages| && messages[i].batch.None? && !messages[i].state.Completed?
  }

  lemma OldestFirst(messages: seq<Message>)
    ensures InOrderOfArrival(messages, Unbatched(messages))
  {
    UnbatchedAscends(messages);
  }

  /** Batching the oldest ones leaves the others waiting in the same order. */
  lemma {:induction false} BatchingTakesTheOldest(messages: seq<Message>, k: nat, ids: set<nat>, b: nat)
    requires k <= |Unbatched(messages)| && forall i: nat :: i in ids <==> i in Unbatched(messages)[..k]
    ensures Unbatched(Batched(messages, ids, b)) == Unbatched(messages)[k..]
  {
    if messages != [] {
      var last := |messages| - 1;
      var before := Unbatched(messages[..last]);
      assert last !in before;
      assert Batched(messages, ids, b)[..last] == Batched(messages[..last], ids - {last}, b);
      if k <= |before| {
        assert Unbatched(messages)[..k] == before[..k];
        assert last !in before[..k];
        BatchingTakesTheOldest(messages[..last], k, ids - {last}, b);
      } else {
        assert Unbatched(messages) == before + [last] && Unbatched(messages)[..k] == before + [last];
        assert before == before[..|before|];
        BatchingTakesTheOldest(messages[..last], |before|, ids - {last}, b);
      }
    }
  }

  /** These messages went into this batch, and nothing else changed. */
  ghost predicate TakenInto(messages: seq<Message>, messages': seq<Message>, b: nat, ids: seq<nat>) {
    && |messages'| == |messages|
    && (forall i | i in ids :: i < |messages| && messages[i].batch.None?)
    && forall i: nat | i < |messages| ::
         messages'[i] == if i in ids then messages[i].(batch := Some(b)) else messages[i]
  }

  ghost predicate WentInto(messages: seq<Message>, messages': seq<Message>, b: nat, ids: seq<nat>) {
    forall i: nat | i in ids ::
      && i < |messages| && i < |messages'|
      && messages[i].batch.None? && messages'[i] == messages[i].(batch := Some(b))
  }

  ghost predicate InNone(formed: seq<seq<nat>>, i: nat) {
    forall k: nat | k < |formed| :: i !in formed[k]
  }

  /** The k-th list went into the k-th new batch, and nothing else changed. */
  ghost predicate IntoBatches(messages: seq<Message>, messages': seq<Message>, first: nat, formed: seq<seq<nat>>) {
    && |messages'| == |messages|
    && (forall k: nat | k < |formed| :: WentInto(messages, messages', first + k, formed[k]))
    && forall i: nat | i < |messages| && InNone(formed, i) :: messages'[i] == messages[i]
  }

  lemma IntoOneMore(messages: seq<Message>, now: seq<Message>, after: seq<Message>, first: nat,
        formed: seq<seq<nat>>, ids: seq<nat>, b: nat)
    requires IntoBatches(messages, now, first, formed) && TakenInto(now, after, b, ids) && b == first + |formed|
    ensures IntoBatches(messages, after, first, formed + [ids])
  {
    var formed' := formed + [ids];
    forall k: nat | k < |formed| ensures WentInto(messages, after, first + k, formed'[k]) {
      assert WentInto(messages, now, first + k, formed[k]);
    }
    forall i: nat | i in ids ensures InNone(formed, i) {
      forall k: nat | k < |formed| ensures i !in formed[k] {
        assert WentInto(messages, now, first + k, formed[k]);
      }
    }
    forall i: nat | i < |messages| && InNone(formed', i) ensures after[i] == messages[i] {
      assert formed'[|formed|] == ids;
      assert forall k: nat | k < |formed| :: formed'[k] == formed[k];
      assert InNone(formed, i);
    }
  }

  lemma OneMoreBatch(formed: seq<seq<nat>>, waiting: seq<nat>, size: nat)
    requires size <= |waiting|
    ensures Flatten(formed + [waiting[..size]]) + waiting[size..] == Flatten(formed) + waiting
  {
    FlattenSnoc(formed, waiting[..size]);
    assert waiting == waiting[..size] + waiting[size..];
  }

  ghost predicate Formed(start: seq<Message>, now: seq<Message>, first: nat, formed: seq<seq<nat>>,
        waiting: seq<nat>, size: nat)
  {
    && waiting == Unbatched(now) && Unbatched(start) == Flatten(formed) + waiting
    && (forall ids | ids in formed :: |ids| == size)
    && IntoBatches(start, now, first, formed)
  }

  lemma NoneFormed(messages: seq<Message>, first: nat, size: nat)
    ensures Formed(messages, messages, first, [], Unbatched(messages), size)
  {
    assert [] + Unbatched(messages) == Unbatched(messages);
  }

  lemma AllOfSize(formed: seq<seq<nat>>, ids: seq<nat>, size: nat)
    requires |ids| == size && forall f | f in formed :: |f| == size
    ensures forall f | f in formed + [ids] :: |f| == size
  {
  }

  lemma FormedOneMore(start: seq<Message>, now: seq<Message>, after: seq<Message>, first: nat,
        formed: seq<seq<nat>>, waiting: seq<nat>, size: nat, b: nat)
    requires Formed(start, now, first, formed, waiting, size) && size <= |waiting| && b == first + |formed|
    requires Unbatched(after) == waiting[size..] && TakenInto(now, after, b, waiting[..size])
    ensures Formed(start, after, first, formed + [waiting[..size]], waiting[size..], size)
  {
    OneMoreBatch(formed, waiting, size);
    IntoOneMore(start, now, after, first, formed, waiting[..size], b);
    AllOfSize(formed, waiting[..size], size);
  }

  // ----- The store and its worker

  class ExtractionStore {
    var messages: seq<Message>
    var batches: nat
    ghost var failures: seq<nat>
    ghost var inFlight: Option<nat>

    ghost predicate Consistent()
      reads this
    {
      batches == |failures| && Valid(State())
    }

    ghost function State(): Store
      reads this
    {
      Store(messages, failures, inFlight)
    }

    constructor ()
      ensures Consistent() && State() == EMPTY
    {
      messages, batches, failures, inFlight := [], 0, [], None;
    }

    method RecordMessage() returns (id: nat)
      requires Consistent()
      modifies this`messages
      ensures Consistent() && State() == Step(old(State()), Record) && id == |old(messages)|
      ensures messages == old(messages) + [Message(None, Pending, 0)]
    {
      StepKeepsValid(State(), Record);
      id := |messages|;
      messages := messages + [Message(None, Pending, 0)];
    }

    method CreateExtractionBatch(ids: set<nat>) returns (batch: Option<nat>)
      requires Consistent()
      modifies this`messages, this`batches, this`failures
      ensures Consistent() && State() == Step(old(State()), CreateBatch(ids))
      ensures batch == if Batchable(old(messages), ids) == {} then None else Some(old(batches))
      ensures batch.Some? ==> batch.value == old(batches) && batches == old(batches) + 1
      ensures batch.None? ==> batches == old(batches)
      ensures |messages| == |old(messages)|
      ensures forall i: nat | i < |messages| ::
                messages[i] ==
                if i in ids && old(messages)[i].batch.None? && !old(messages)[i].state.Completed? then
                  old(messages)[i].(batch := batch)
                else old(messages)[i]
      ensures batch.None? <==>
                forall i: nat | i < |messages| && i in ids ::
                  old(messages)[i].batch.Some? || old(messages)[i].state.Completed?
    {
      StepKeepsValid(State(), CreateBatch(ids));
      var taken := Batchable(messages, ids);
      assert forall i: nat | i < |messages| && i in ids && messages[i].batch.None? && !messages[i].state.Completed? ::
               i in taken;
      if taken == {} {
        return None;
      }
      batch := Some(batches);
      messages := Batched(messages, taken, batches);
      batches, failures := batches + 1, failures + [0];
    }

    /** Full batches are formed from the oldest messages, and fewer than a batch stay behind. */
    method DrainExtractionBatches(size: nat) returns (ghost formed: seq<seq<nat>>)
      requires Consistent() && size > 0
      modifies this`messages, this`batches, this`failures
      ensures Consistent() && batches == old(batches) + |formed|
      ensures Unbatched(old(messages)) == Flatten(formed) + Unbatched(messages)
      ensures |Unbatched(messages)| < size && forall ids | ids in formed :: |ids| == size
      ensures IntoBatches(old(messages), messages, old(batches), formed)
      ensures InOrderOfArrival(old(messages), Flatten(formed) + Unbatched(messages))
    {
      OldestFirst(messages);
      formed := FormBatches(size);
    }

    method FormBatches(size: nat) returns (ghost formed: seq<seq<nat>>)
      requires Consistent() && size > 0
      modifies this`messages, this`batches, this`failures
      ensures Consistent() && batches == old(batches) + |formed|
      ensures Unbatched(old(messages)) == Flatten(formed) + Unbatched(messages)
      ensures |Unbatched(messages)| < size && forall ids | ids in formed :: |ids| == size
      ensures IntoBatches(old(messages), messages, old(batches), formed)
    {
      formed := [];
      var waiting := Unbatched(messages);
      NoneFormed(messages, batches, size);
      while |waiting| >= size
        invariant Consistent() && batches == old(batches) + |formed|
        invariant Formed(old(messages), messages, old(batches), formed, waiting, size)
        decreases |waiting|
      {
        ghost var more := formed + [waiting[..size]];
        waiting := FormOne(waiting, size, old(messages), old(batches), formed);
        formed := more;
      }
    }

    method FormOne(waiting: seq<nat>, size: nat, ghost start: seq<Message>, ghost first: nat,
          ghost formed: seq<seq<nat>>) returns (rest: seq<nat>)
      requires Consistent() && 0 < size <= |waiting| && batches == first + |formed|
      requires Formed(start, messages, first, formed, waiting, size)
      modifies this`messages, this`batches, this`failures
      ensures Consistent() && batches == old(batches) + 1 && |rest| < |waiting|
      ensures Formed(start, messages, first, formed + [waiting[..size]], rest, size)
    {
      ghost var now, b := messages, batches;
      CreateOldest(waiting, size);
      FormedOneMore(start, now, messages, first, formed, waiting, size, b);
      rest := Unbatched(messages);
    }

    method CreateOldest(waiting: seq<nat>, size: nat)
      requires Consistent() && waiting == Unbatched(messages) && 0 < size <= |waiting|
      modifies this`messages, this`batches, this`failures
      ensures Consistent() && batches == old(batches) + 1 && Unbatched(messages) == waiting[size..]
      ensures TakenInto(old(messages), messages, old(batches), waiting[..size])
    {
      var ids := set i | i in waiting[..size];
      assert waiting[0] in waiting[..size];
      assert forall i | i in waiting[..size] :: i in waiting;
      assert Batchable(messages, ids) == ids;
      BatchingTakesTheOldest(messages, size, ids, batches);
      var batch := CreateExtractionBatch(ids);
    }

    method MarkExtractionAttempt(b: nat)
      requires Consistent() && inFlight.None? && b in EligibleBatches(State())
      modifies this`messages, this`inFlight
      ensures Consistent() && State() == Step(old(State()), Mark(b)) && inFlight == Some(b)
      ensures |messages| == |old(messages)| && forall i: nat | i < |messages| ::
                messages[i] ==
                if old(messages)[i].batch == Some(b) && !old(messages)[i].state.Completed? then
                  Message(Some(b), Pending, old(messages)[i].attempts + 1)
                else old(messages)[i]
    {
      StepKeepsValid(State(), Mark(b));
      messages, inFlight := Marked(messages, b), Some(b);
    }

    method FailExtraction(b: nat)
      requires Consistent() && inFlight == Some(b)
      modifies this`messages, this`failures, this`inFlight
      ensures Consistent() && State() == Step(old(State()), Fail)
      ensures |messages| == |old(messages)| && forall i: nat | i < |messages| ::
                messages[i] ==
                if old(messages)[i].batch == Some(b) && !old(messages)[i].state.Completed? then
                  Message(Some(b), Failed, old(messages)[i].attempts)
                else old(messages)[i]
    {
      StepKeepsValid(State(), Fail);
      messages, failures, inFlight := MarkedFailed(messages, b), failures[b := failures[b] + 1], None;
    }

    method ApplyExtraction(b: nat)
      requires Consistent() && inFlight == Some(b)
      modifies this`messages, this`inFlight
      ensures Consistent() && State() == Step(old(State()), Apply)
      ensures |messages| == |old(messages)| && forall i: nat | i < |messages| ::
                messages[i] ==
                if old(messages)[i].batch == Some(b) then Message(Some(b), Completed, old(messages)[i].attempts)
                else old(messages)[i]
    {
      StepKeepsValid(State(), Apply);
      messages, inFlight := MarkedCompleted(messages, b), None;
    }

    /** Other tasks at work while the worker waits. */
    method Arrive(events: seq<Event>)
      requires Consistent() && Arrivals(events)
      modifies this`messages, this`batches, this`failures
      ensures Consistent() && State() == Run(old(State()), events)
    {
      var k := 0;
      while k < |events|
        invariant 0 <= k <= |events| && Consistent()
        invariant Run(State(), events[k..]) == Run(old(State()), events)
      {
        assert events[k..][0] == events[k] && events[k..][1..] == events[k + 1..];
        match events[k] {
          case Record => var id := RecordMessage();
          case CreateBatch(ids) => var batch := CreateExtractionBatch(ids);
          case _ =>
        }
        k := k + 1;
      }
    }

    /** What awaits extraction, grouped by batch, neediest first. */
    method PendingExtractions() returns (groups: seq<Group>)
      ensures Grouped(messages, PendingRows(messages), groups) && AllIncomplete(messages, PendingRows(messages))
      ensures InQueryOrder(messages, groups)
    {
      var rows := PendingRows(messages);
      PendingRowsInOrder(messages);
      groups := [];
      for k := 0 to |rows|
        invariant Grouped(messages, rows[..k], groups)
        invariant InQueryOrder(messages, groups) && MembersAmong(rows[..k], groups)
      {
        NextRow(messages, rows, k);
        AddRowKeepsOrder(messages, rows[..k], groups, rows[k]);
        AddRowKeeps(messages, rows[..k], groups, rows[k]);
        groups := GroupRow(groups, rows[k]);
      }
      assert rows[..|rows|] == rows;
    }

    method GroupRow(groups: seq<Group>, i: nat) returns (r: seq<Group>)
      requires i < |messages|
      ensures r == AddRow(messages, groups, i)
    {
      var g := GroupOf(groups, messages[i].batch);
      if g.None? {
        r := groups + [Group(messages[i].batch, [i], messages[i].attempts, messages[i].state)];
      } else {
        r := groups[g.value := groups[g.value].(members := groups[g.value].members + [i])];
      }
    }

    /** The batches worth an attempt, neediest first. */
    method EligibleBatchIds() returns (ids: seq<nat>)
      requires Consistent()
      ensures forall b: nat :: b in ids <==> b in EligibleBatches(State())
      ensures Distinct(ids) && (ids != [] ==> Neediest(State(), ids[0]))
    {
      var groups := PendingExtractions();
      ghost var rows := PendingRows(messages);
      ids := EligibleIds(groups);
      EligibleGroups(State(), rows, groups);
      if ids != [] { FirstEligibleIsNeediest(State(), rows, groups); }
    }

    /** One attempt on a batch, while others keep arriving. */
    method AttemptBatch(b: nat, script: Script)
      requires Consistent() && inFlight.None? && b in EligibleBatches(State())
      requires Arrivals(script.early) && Arrivals(script.late)
      modifies this
      ensures Consistent() && inFlight.None? && State() == Run(old(State()), AttemptOn(b, script))
    {
      var early, marked, late := AttemptPhases(State(), b, script);
      Arrive(script.early);
      MarkExtractionAttempt(b);
      Arrive(script.late);
      if script.succeeds {
        ApplyExtraction(b);
      } else {
        FailExtraction(b);
      }
    }

    /** One attempt on the neediest eligible batch; tells whether there were other ones. */
    method Attempt(script: Script) returns (more: bool, ghost batch: Option<nat>)
      requires Consistent() && inFlight.None? && Arrivals(script.early) && Arrivals(script.late)
      modifies this
      ensures Consistent() && inFlight.None?
      ensures batch.None? ==> EligibleBatches(old(State())) == {} && !more && State() == old(State())
      ensures batch.Some? ==> batch.value in EligibleBatches(old(State())) && Neediest(old(State()), batch.value)
      ensures batch.Some? ==> State() == Run(old(State()), AttemptOn(batch.value, script))
      ensures batch.Some? ==> (more <==> EligibleBatches(old(State())) != {batch.value})
    {
      var eligible := EligibleBatchIds();
      if eligible == [] {
        return false, None;
      }
      var b := eligible[0];
      assert b in eligible;
      more, batch := |eligible| > 1, Some(b);
      if more { assert eligible[1] in eligible; }
      AttemptBatch(b, script);
    }

    /** An attempt, and what it means when it says that there was no other batch, or that it used up work. */
    method AttemptOnce(script: Script) returns (more: bool, ghost last: Option<nat>, ghost before: Store)
      requires Consistent() && inFlight.None? && Arrivals(script.early) && Arrivals(script.late)
      modifies this
      ensures Consistent() && inFlight.None? && (more ==> last.Some?)
      ensures !more ==> Ended(before, last, script, State())
      ensures last.Some? && Quiet(script.early) && Quiet(script.late) ==>
          batches == old(batches) && Work(State(), batches) < Work(old(State()), old(batches))
      ensures last.None? ==> State() == old(State()) && batches == old(batches)
    {
      before := State();
      more, last := Attempt(script);
      if last.Some? && Quiet(script.early) && Quiet(script.late) { AttemptUsesUpWork(before, last.value, script); }
    }

    /**
      The drain: it ends although batches may be created during the first `busy` attempts, and then what
      is eligible was created during the last attempt, or is the batch that just failed.
     */
    method RunUntilCaughtUp(scripts: nat -> Script, busy: nat)
      returns (attempts: nat, ghost last: Option<nat>, ghost before: Store)
      requires Consistent() && inFlight.None?
      requires forall k :: Arrivals(scripts(k).early) && Arrivals(scripts(k).late)
      requires forall k: nat | k >= busy :: Quiet(scripts(k).early) && Quiet(scripts(k).late)
      modifies this
      ensures Consistent() && inFlight.None?
      ensures attempts > 0 && Ended(before, last, scripts(attempts - 1), State())
      ensures last.Some? ==>
          EligibleBatches(State()) ==
            Created(before, State()) + Remaining(before, last.value, scripts(attempts - 1).succeeds)
      ensures busy == 0 ==> attempts <= Work(old(State()), old(batches)) + 1 && batches == old(batches)
    {
      attempts, last, before := 0, None, State();
      var more := true;
      while more
        invariant Consistent() && inFlight.None?
        invariant busy == 0 ==> batches == old(batches)
        invariant busy == 0 ==>
                    attempts + Work(State(), batches) <= Work(old(State()), old(batches)) + (if more then 0 else 1)
        invariant !more ==> attempts > 0 && Ended(before, last, scripts(attempts - 1), State())
        decreases more, if attempts < busy then busy - attempts else 0, Work(State(), batches)
      {
        more, last, before := AttemptOnce(scripts(attempts));
        attempts := attempts + 1;
      }
      if last.Some? { DrainEnds(before, last.value, scripts(attempts - 1)); }
    }
  }
}

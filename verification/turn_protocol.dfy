/**
  The turn protocol of the Hermes plugin: a prefetch sends the user's message early, the finished turn
  is queued for writing, and the network delays requests and loses answers.

  A message's `metadata` holds the turn it was sent for, which no step of the protocol reads.
 */
module TurnProtocol {
  import opened MessageIntake
  import opened Wrappers

  datatype Phase = Open | Synced | Abandoned

  datatype Turn = Turn(conversation: string, text: string, phase: Phase)

  /** The turn slot of a conversation; `owner` is the turn whose prefetch made it. */
  datatype Slot = Slot(text: string, key: string, started: bool, persisted: bool, owner: nat)

  datatype Queued = Queued(turn: nat, messages: seq<Message>)

  /** `replies` is what each ended turn was answered. */
  datatype State = State(
    turns: seq<Turn>,
    replies: map<nat, string>,
    slots: map<string, Slot>,
    requests: map<string, Message>,
    delivered: set<string>,
    queue: seq<Queued>,
    rows: seq<Message>,
    written: set<nat>,
    uses: set<(nat, string)>)

  const EMPTY := State([], map[], map[], map[], {}, [], [], {}, {})

  const PROVIDER := "hermes"

  datatype Event =
    | Begin(conversation: string, text: string)
    | Claim(turn: nat, uuid: string)
    | Deliver(key: string)
    | Respond(key: string)
    | Sync(turn: nat, reply: string, uuid: string)
    | Write(arrives: bool)
    | Abandon(turn: nat)

  function UserMessage(turn: Turn, key: string, t: nat): Message {
    Message(Some(key), User, turn.text, Source(PROVIDER, Some(turn.conversation), None), t)
  }

  function AssistantMessage(turn: Turn, reply: string, t: nat): Message {
    Message(None, Assistant, reply, Source(PROVIDER, Some(turn.conversation), None), t)
  }

  /** A uuid4 is never empty and never drawn twice. */
  ghost predicate FreshKey(s: State, key: string) {
    key != "" && forall u | u in s.uses :: u.1 != key
  }

  ghost predicate SlotMatches(s: State, t: nat)
    requires t < |s.turns|
  {
    s.turns[t].conversation in s.slots && s.slots[s.turns[t].conversation].text == s.turns[t].text
  }

  // ----- Steps

  /** The prefetch thread's first critical section, and the request it sends when it is the one to start. */
  ghost function ClaimSlot(s: State, t: nat, uuid: string): State
    requires t < |s.turns|
  {
    var turn := s.turns[t];
    var slot := if SlotMatches(s, t) then s.slots[turn.conversation] else Slot(turn.text, uuid, false, false, t);
    if slot.started then s
    else s.(slots := s.slots[turn.conversation := slot.(started := true)],
            requests := s.requests[slot.key := UserMessage(turn, slot.key, t)],
            uses := s.uses + {(t, slot.key)})
  }

  /** The thread's second critical section, after an answer with message ids. */
  function MarkPersisted(slots: map<string, Slot>, key: string): map<string, Slot> {
    map c | c in slots :: if slots[c].key == key then slots[c].(persisted := true) else slots[c]
  }

  /** The end of a turn: the slot is released, and what is not known to be stored is queued. */
  ghost function EndTurn(s: State, t: nat, reply: string, uuid: string): State
    requires t < |s.turns|
  {
    var turn := s.turns[t];
    var key := if SlotMatches(s, t) then s.slots[turn.conversation].key else uuid;
    var messages :=
      if SlotMatches(s, t) && s.slots[turn.conversation].persisted then [AssistantMessage(turn, reply, t)]
      else [UserMessage(turn, key, t), AssistantMessage(turn, reply, t)];
    s.(turns := s.turns[t := turn.(phase := Synced)],
       replies := s.replies[t := reply],
       slots := s.slots - {turn.conversation},
       queue := s.queue + [Queued(t, messages)],
       uses := s.uses + {(t, key)})
  }

  ghost function Leave(s: State, t: nat): State
    requires t < |s.turns|
  {
    s.(turns := s.turns[t := s.turns[t].(phase := Abandoned)])
  }

  ghost predicate Enabled(s: State, e: Event) {
    match e
    case Begin(conversation, text) => true
    case Claim(t, uuid) => t < |s.turns| && s.turns[t].text != "" && FreshKey(s, uuid)
    case Deliver(key) => key in s.requests
    case Respond(key) => key in s.delivered
    case Sync(t, reply, uuid) => t < |s.turns| && s.turns[t].phase.Open? && FreshKey(s, uuid)
    case Write(_) => s.queue != []
    case Abandon(t) => t < |s.turns| && s.turns[t].phase.Open?
  }

  ghost function Step(s: State, e: Event): State {
    if !Enabled(s, e) then s
    else
      match e
      case Begin(conversation, text) => s.(turns := s.turns + [Turn(conversation, text, Open)])
      case Claim(t, uuid) => ClaimSlot(s, t, uuid)
      case Deliver(key) =>
        (match RecordAll(s.rows, [s.requests[key]])
         case Ok(done) => s.(rows := done.0, delivered := s.delivered + {key})
         case Err(_) => s)
      case Respond(key) => s.(slots := MarkPersisted(s.slots, key))
      case Sync(t, reply, uuid) =>
        if s.turns[t].text == "" || reply == "" then Leave(s, t) else EndTurn(s, t, reply, uuid)
      case Write(arrives) =>
        var q := s.queue[0];
        var rest := s.(queue := s.queue[1..]);
        if !arrives then rest
        else
          (match RecordAll(s.rows, q.messages)
           case Ok(done) => rest.(rows := done.0, written := s.written + {q.turn})
           case Err(_) => rest)
      case Abandon(t) => Leave(s, t)
  }

  ghost function Run(s: State, events: seq<Event>): State
    decreases |events|
  {
    if events == [] then s else Run(Step(s, events[0]), events[1..])
  }

  // ----- What every run keeps

  ghost predicate HasRow(rows: seq<Message>, key: string) {
    exists i :: 0 <= i < |rows| && rows[i].key == Some(key)
  }

  ghost predicate HasReply(rows: seq<Message>, t: nat) {
    exists i :: 0 <= i < |rows| && rows[i].author.Assistant? && rows[i].metadata == t
  }

  ghost predicate TurnHasRow(s: State, t: nat) {
    exists u :: u in s.uses && u.0 == t && HasRow(s.rows, u.1)
  }

  /** The message is of this turn: of the plugin, in the turn's conversation, and without a place of its own. */
  ghost predicate OfTurn(s: State, m: Message, t: nat) {
    && t < |s.turns| && m.metadata == t
    && m.source.provider == "hermes" && m.source.conversation == Some(s.turns[t].conversation) && m.source.item.None?
  }

  /** What the user said in the turn. */
  ghost predicate SaysText(s: State, m: Message, t: nat) {
    OfTurn(s, m, t) && m.author.User? && m.content == s.turns[t].text
  }

  /** What the turn was answered. */
  ghost predicate SaysReply(s: State, m: Message, t: nat) {
    OfTurn(s, m, t) && m.author.Assistant? && m.key.None? && t in s.replies && m.content == s.replies[t]
  }

  ghost predicate RowValid(s: State, m: Message) {
    match m.author
    case User => SaysText(s, m, m.metadata) && HasKey(m) && (m.metadata, m.key.value) in s.uses
    case Assistant => SaysReply(s, m, m.metadata) && m.metadata in s.written
  }

  ghost predicate RequestValid(s: State, key: string, m: Message) {
    SaysText(s, m, m.metadata) && m.key == Some(key) && (m.metadata, key) in s.uses
  }

  ghost predicate SlotValid(s: State, conversation: string, slot: Slot) {
    && slot.started && slot.key in s.requests && s.requests[slot.key].metadata == slot.owner
    && slot.owner < |s.turns| && s.turns[slot.owner].conversation == conversation
       && s.turns[slot.owner].text == slot.text
    && (slot.persisted ==> HasRow(s.rows, slot.key))
  }

  ghost predicate QueuedValid(s: State, q: Queued) {
    && q.turn < |s.turns| && s.turns[q.turn].phase.Synced? && q.turn !in s.written && q.messages != []
    && (var reply := q.messages[|q.messages| - 1];
        && SaysReply(s, reply, q.turn)
        && if |q.messages| == 1 then TurnHasRow(s, q.turn)
           else
             && |q.messages| == 2 && q.messages[0].key.Some? && q.messages[0].metadata == q.turn
             && RequestValid(s, q.messages[0].key.value, q.messages[0]))
  }

  ghost predicate RowsValid(s: State) {
    && Unique(s.rows)
    && (forall i: nat | i < |s.rows| :: RowValid(s, s.rows[i]))
    && (forall i: nat, j: nat | i < j < |s.rows| && s.rows[i].author.Assistant? && s.rows[j].author.Assistant? ::
          s.rows[i].metadata != s.rows[j].metadata)
  }

  ghost predicate RequestsValid(s: State) {
    && (forall key | key in s.requests :: RequestValid(s, key, s.requests[key]))
    && (forall key | key in s.delivered :: HasRow(s.rows, key))
    && (forall u | u in s.uses :: u.0 < |s.turns| && u.1 != "")
  }

  ghost predicate SlotsValid(s: State) {
    forall c | c in s.slots :: SlotValid(s, c, s.slots[c])
  }

  ghost predicate QueueValid(s: State) {
    && (forall i: nat | i < |s.queue| :: QueuedValid(s, s.queue[i]))
    && (forall i: nat, j: nat | i < j < |s.queue| :: s.queue[i].turn != s.queue[j].turn)
  }

  ghost predicate WrittenValid(s: State) {
    forall t: nat | t in s.written ::
      t < |s.turns| && s.turns[t].phase.Synced? && TurnHasRow(s, t) && HasReply(s.rows, t)
  }

  /** The ended turns, and no others, have been answered. */
  ghost predicate RepliesValid(s: State) {
    forall t: nat :: t in s.replies <==> t < |s.turns| && s.turns[t].phase.Synced?
  }

  ghost predicate Valid(s: State) {
    RowsValid(s) && RequestsValid(s) && SlotsValid(s) && QueueValid(s) && WrittenValid(s) && RepliesValid(s)
  }

  /** Steps add rows, uses and turns, and change none but a turn's phase. */
  ghost predicate Grows(s: State, s': State) {
    && |s.turns| <= |s'.turns|
    && (forall t: nat | t < |s.turns| ::
          s'.turns[t].conversation == s.turns[t].conversation && s'.turns[t].text == s.turns[t].text
          && (s.turns[t].phase.Synced? ==> s'.turns[t].phase.Synced?))
    && s.rows <= s'.rows && s.uses <= s'.uses && s.written <= s'.written
    && (forall t: nat | t in s.replies :: t in s'.replies && s'.replies[t] == s.replies[t])
  }

  lemma HasRowStays(s: State, s': State, key: string)
    requires Grows(s, s') && HasRow(s.rows, key)
    ensures HasRow(s'.rows, key)
  {
    var i :| 0 <= i < |s.rows| && s.rows[i].key == Some(key);
    assert s'.rows[i] == s.rows[i];
  }

  lemma TurnHasRowStays(s: State, s': State, t: nat)
    requires Grows(s, s') && TurnHasRow(s, t)
    ensures TurnHasRow(s', t)
  {
    var u :| u in s.uses && u.0 == t && HasRow(s.rows, u.1);
    HasRowStays(s, s', u.1);
    assert u in s'.uses;
  }

  lemma HasReplyStays(s: State, s': State, t: nat)
    requires Grows(s, s') && HasReply(s.rows, t)
    ensures HasReply(s'.rows, t)
  {
    var i :| 0 <= i < |s.rows| && s.rows[i].author.Assistant? && s.rows[i].metadata == t;
    assert s'.rows[i] == s.rows[i];
  }

  lemma RowStays(s: State, s': State, m: Message)
    requires Grows(s, s') && RowValid(s, m)
    ensures RowValid(s', m)
  {
  }

  lemma RowsStay(s: State, s': State)
    requires RowsValid(s) && Grows(s, s') && s'.rows == s.rows
    ensures RowsValid(s')
  {
    forall i: nat | i < |s'.rows| ensures RowValid(s', s'.rows[i]) { RowStays(s, s', s.rows[i]); }
  }

  lemma RequestsStay(s: State, s': State)
    requires RequestsValid(s) && Grows(s, s') && s'.delivered == s.delivered
    requires forall key | key in s'.requests ::
               (key in s.requests && s'.requests[key] == s.requests[key]) || RequestValid(s', key, s'.requests[key])
    requires forall u | u in s'.uses :: u in s.uses || (u.0 < |s'.turns| && u.1 != "")
    ensures RequestsValid(s')
  {
    forall key | key in s'.delivered ensures HasRow(s'.rows, key) { HasRowStays(s, s', key); }
  }

  lemma WrittenStays(s: State, s': State)
    requires WrittenValid(s) && Grows(s, s') && s'.written == s.written
    ensures WrittenValid(s')
  {
    forall t: nat | t in s'.written ensures TurnHasRow(s', t) && HasReply(s'.rows, t) {
      TurnHasRowStays(s, s', t);
      HasReplyStays(s, s', t);
    }
  }

  lemma QueuedStays(s: State, s': State, q: Queued)
    requires Grows(s, s') && QueuedValid(s, q) && q.turn !in s'.written
    ensures QueuedValid(s', q)
  {
    if |q.messages| == 1 { TurnHasRowStays(s, s', q.turn); }
  }

  lemma QueueStays(s: State, s': State)
    requires QueueValid(s) && Grows(s, s') && s'.queue == s.queue && s'.written == s.written
    ensures QueueValid(s')
  {
    forall i: nat | i < |s'.queue| ensures QueuedValid(s', s'.queue[i]) { QueuedStays(s, s', s.queue[i]); }
  }

  lemma SlotStays(s: State, s': State, c: string, slot: Slot)
    requires Grows(s, s') && SlotValid(s, c, slot)
    requires slot.key in s'.requests && s'.requests[slot.key] == s.requests[slot.key]
    ensures SlotValid(s', c, slot)
  {
    if slot.persisted { HasRowStays(s, s', slot.key); }
  }

  ghost predicate RequestsKept(s: State, s': State) {
    forall key | key in s.requests :: key in s'.requests && s'.requests[key] == s.requests[key]
  }

  lemma SlotsStay(s: State, s': State)
    requires SlotsValid(s) && Grows(s, s') && RequestsKept(s, s')
    requires forall c | c in s'.slots :: (c in s.slots && s'.slots[c] == s.slots[c]) || SlotValid(s', c, s'.slots[c])
    ensures SlotsValid(s')
  {
    forall c | c in s'.slots && c in s.slots && s'.slots[c] == s.slots[c] ensures SlotValid(s', c, s'.slots[c]) {
      SlotStays(s, s', c, s.slots[c]);
    }
  }

  /** What a step that records nothing leaves as it was. */
  lemma ClientStepKeeps(s: State, s': State)
    requires Valid(s) && Grows(s, s') && RequestsKept(s, s')
    requires s'.rows == s.rows && s'.written == s.written && s'.delivered == s.delivered
             && (s'.queue == s.queue || QueueValid(s'))
    requires forall key | key in s'.requests :: key in s.requests || RequestValid(s', key, s'.requests[key])
    requires forall u | u in s'.uses :: u in s.uses || (u.0 < |s'.turns| && u.1 != "")
    requires forall c | c in s'.slots :: (c in s.slots && s'.slots[c] == s.slots[c]) || SlotValid(s', c, s'.slots[c])
    requires RepliesValid(s')
    ensures Valid(s')
  {
    RowsStay(s, s');
    RequestsStay(s, s');
    SlotsStay(s, s');
    if s'.queue == s.queue { QueueStays(s, s'); }
    WrittenStays(s, s');
  }

  lemma ClaimKeeps(s: State, t: nat, uuid: string)
    requires Valid(s) && Enabled(s, Claim(t, uuid))
    ensures Valid(ClaimSlot(s, t, uuid)) && Grows(s, ClaimSlot(s, t, uuid))
  {
    var s', turn := ClaimSlot(s, t, uuid), s.turns[t];
    if SlotMatches(s, t) {
      assert SlotValid(s, turn.conversation, s.slots[turn.conversation]);
    } else {
      forall key | key in s.requests ensures key != uuid {
        assert RequestValid(s, key, s.requests[key]);
      }
      assert RequestValid(s', uuid, s'.requests[uuid]);
      assert SlotValid(s', turn.conversation, s'.slots[turn.conversation]);
      ClientStepKeeps(s, s');
    }
  }

  lemma RespondKeeps(s: State, key: string)
    requires Valid(s) && key in s.delivered
    ensures Valid(Step(s, Respond(key))) && Grows(s, Step(s, Respond(key)))
  {
    var s' := Step(s, Respond(key));
    forall c | c in s'.slots ensures SlotValid(s', c, s'.slots[c]) {
      assert SlotValid(s, c, s.slots[c]);
    }
    ClientStepKeeps(s, s');
  }

  lemma LeaveKeeps(s: State, t: nat)
    requires Valid(s) && t < |s.turns| && s.turns[t].phase.Open?
    ensures Valid(Leave(s, t)) && Grows(s, Leave(s, t))
  {
    ClientStepKeeps(s, Leave(s, t));
  }

  lemma BeginKeeps(s: State, conversation: string, text: string)
    requires Valid(s)
    ensures Valid(Step(s, Begin(conversation, text))) && Grows(s, Step(s, Begin(conversation, text)))
  {
    ClientStepKeeps(s, Step(s, Begin(conversation, text)));
  }

  lemma NewQueued(s: State, t: nat, reply: string, uuid: string)
    requires Valid(s) && Enabled(s, Sync(t, reply, uuid))
    ensures var s' := EndTurn(s, t, reply, uuid);
            QueuedValid(s', s'.queue[|s.queue|]) && forall u | u in s'.uses :: u in s.uses || (u.0 == t && u.1 != "")
  {
    var s', turn := EndTurn(s, t, reply, uuid), s.turns[t];
    if SlotMatches(s, t) {
      var slot := s.slots[turn.conversation];
      assert SlotValid(s, turn.conversation, slot);
      assert RequestValid(s, slot.key, s.requests[slot.key]);
      assert (t, slot.key) in s'.uses;
    }
    assert t !in s.written;
  }

  lemma QueueAppend(s: State, s': State, q: Queued)
    requires QueueValid(s) && Grows(s, s') && s'.queue == s.queue + [q] && s'.written == s.written
    requires QueuedValid(s', q) && q.turn < |s.turns| && !s.turns[q.turn].phase.Synced?
    ensures QueueValid(s')
  {
    forall i: nat | i < |s.queue| ensures QueuedValid(s', s'.queue[i]) && s.queue[i].turn != q.turn {
      assert QueuedValid(s, s.queue[i]);
      QueuedStays(s, s', s.queue[i]);
    }
  }

  lemma SyncKeeps(s: State, t: nat, reply: string, uuid: string)
    requires Valid(s) && Enabled(s, Sync(t, reply, uuid))
    ensures Valid(EndTurn(s, t, reply, uuid)) && Grows(s, EndTurn(s, t, reply, uuid))
  {
    var s' := EndTurn(s, t, reply, uuid);
    NewQueued(s, t, reply, uuid);
    QueueAppend(s, s', s'.queue[|s.queue|]);
    ClientStepKeeps(s, s');
  }

  /** What recording a user message does: it is there afterwards, once. */
  lemma RecordUser(rows: seq<Message>, m: Message)
    requires Unique(rows) && m.author.User? && HasKey(m) && m.source.item.None?
    ensures RecordAll(rows, [m]).Ok?
    ensures var rows' := RecordAll(rows, [m]).value.0;
            && rows' == (if HasRow(rows, m.key.value) then rows else rows + [m])
            && Unique(rows') && HasRow(rows', m.key.value)
  {
    assert [m][..0] == [] && RecordAll(rows, []) == Ok((rows, []));
    if HasRow(rows, m.key.value) {
      assert Duplicate(rows, m).Some?;
    } else {
      assert Duplicate(rows, m).None? && !Rejected(rows, m);
      assert (rows + [m])[|rows|] == m;
    }
    RecordingKeepsUnique(rows, [m]);
  }

  lemma RecordReply(rows: seq<Message>, first: seq<Message>, m: Message)
    requires RecordAll(rows, first).Ok? && Unique(RecordAll(rows, first).value.0)
    requires m.key.None? && m.source.item.None?
    ensures RecordAll(rows, first + [m]).Ok?
    ensures RecordAll(rows, first + [m]).value.0 == RecordAll(rows, first).value.0 + [m]
    ensures Unique(RecordAll(rows, first).value.0 + [m])
  {
    assert (first + [m])[..|first|] == first;
    var before := RecordAll(rows, first).value.0;
    assert !Rejected(before, m);
  }

  lemma DeliverKeeps(s: State, key: string)
    requires Valid(s) && key in s.requests
    ensures Valid(Step(s, Deliver(key))) && Grows(s, Step(s, Deliver(key)))
  {
    var m := s.requests[key];
    assert RequestValid(s, key, m) && HasKey(m);
    RecordUser(s.rows, m);
    DeliveredKeeps(s, Step(s, Deliver(key)), key);
  }

  lemma DeliveredKeeps(s: State, s': State, key: string)
    requires Valid(s) && key in s.requests && Unique(s'.rows) && HasRow(s'.rows, key)
    requires s' == s.(rows := s'.rows, delivered := s.delivered + {key})
    requires s'.rows == s.rows || s'.rows == s.rows + [s.requests[key]]
    ensures Valid(s') && Grows(s, s')
  {
    var m := s.requests[key];
    assert RequestValid(s, key, m);
    UserRowKeeps(s, s', m);
    forall k | k in s'.delivered ensures HasRow(s'.rows, k) {
      if k in s.delivered { HasRowStays(s, s', k); }
    }
    SlotsStay(s, s');
    QueueStays(s, s');
    WrittenStays(s, s');
  }

  lemma UserRowKeeps(s: State, s': State, m: Message)
    requires RowsValid(s) && Grows(s, s') && RowValid(s', m) && m.author.User? && Unique(s'.rows)
    requires s'.rows == s.rows || s'.rows == s.rows + [m]
    ensures RowsValid(s')
  {
    forall i: nat | i < |s'.rows| ensures RowValid(s', s'.rows[i]) {
      if i < |s.rows| { RowStays(s, s', s.rows[i]); }
    }
  }

  /** A queued write that arrives: the user's row if it is missing, and always the reply. */
  lemma WriteRecords(s: State, q: Queued) returns (users: seq<Message>, reply: Message)
    requires Valid(s) && QueuedValid(s, q)
    ensures RecordAll(s.rows, q.messages).Ok? && RecordAll(s.rows, q.messages).value.0 == users + [reply]
    ensures Unique(users + [reply]) && reply == q.messages[|q.messages| - 1] && SaysReply(s, reply, q.turn)
    ensures users == s.rows || (|q.messages| == 2 && users == s.rows + [q.messages[0]])
    ensures |q.messages| == 2 ==> q.messages[0].key.Some? && RequestValid(s, q.messages[0].key.value, q.messages[0])
    ensures |q.messages| == 2 ==> q.messages[0].metadata == q.turn && HasRow(users, q.messages[0].key.value)
  {
    reply := q.messages[|q.messages| - 1];
    if |q.messages| == 1 {
      users := s.rows;
      RecordReply(s.rows, [], reply);
      assert q.messages == [] + [reply];
    } else {
      var m := q.messages[0];
      assert RequestValid(s, m.key.value, m) && HasKey(m);
      RecordUser(s.rows, m);
      users := RecordAll(s.rows, [m]).value.0;
      RecordReply(s.rows, [m], reply);
      assert q.messages == [m] + [reply];
    }
  }

  lemma NextInQueue(s: State, s': State)
    requires QueueValid(s) && Grows(s, s') && s.queue != [] && s'.queue == s.queue[1..]
    requires s'.written <= s.written + {s.queue[0].turn}
    ensures QueueValid(s')
  {
    forall i: nat | i < |s'.queue| ensures QueuedValid(s', s'.queue[i]) {
      assert s'.queue[i] == s.queue[i + 1] && QueuedValid(s, s.queue[i + 1]);
      QueuedStays(s, s', s.queue[i + 1]);
    }
  }

  lemma LostWriteKeeps(s: State)
    requires Valid(s) && s.queue != []
    ensures Valid(Step(s, Write(false))) && Grows(s, Step(s, Write(false)))
  {
    var s' := Step(s, Write(false));
    RowsStay(s, s');
    RequestsStay(s, s');
    SlotsStay(s, s');
    WrittenStays(s, s');
    NextInQueue(s, s');
  }

  lemma ArrivedWriteKeeps(s: State)
    requires Valid(s) && s.queue != []
    ensures Valid(Step(s, Write(true))) && Grows(s, Step(s, Write(true)))
  {
    var q, s' := s.queue[0], Step(s, Write(true));
    assert QueuedValid(s, q);
    var users, reply := WriteRecords(s, q);
    RecordedWriteKeeps(s, s', q, users, reply);
  }

  lemma RecordedWriteKeeps(s: State, s': State, q: Queued, users: seq<Message>, reply: Message)
    requires Valid(s) && s.queue != [] && q == s.queue[0] && QueuedValid(s, q)
    requires s' == s.(queue := s.queue[1..], rows := users + [reply], written := s.written + {q.turn})
    requires Unique(users + [reply]) && SaysReply(s, reply, q.turn)
    requires users == s.rows || (|q.messages| == 2 && users == s.rows + [q.messages[0]])
    requires |q.messages| == 2 ==> HasRow(users, q.messages[0].key.value)
    ensures Valid(s') && Grows(s, s')
  {
    var mid := s.(rows := users);
    if users != s.rows { UsersKeep(s, mid, q.messages[0], reply); }
    assert RowValid(s', reply);
    ReplyRowKeeps(mid, s', reply);
    WriteCompletes(s, s', q, users, reply);
    RequestsStay(s, s');
    SlotsStay(s, s');
    NextInQueue(s, s');
  }

  lemma UsersKeep(s: State, mid: State, m: Message, reply: Message)
    requires RowsValid(s) && mid == s.(rows := s.rows + [m]) && Unique(mid.rows + [reply])
    requires m.key.Some? && m.key.value != "" && RequestValid(s, m.key.value, m)
    ensures RowsValid(mid)
  {
    assert forall i, j | 0 <= i < j < |mid.rows| ::
             mid.rows[i] == (mid.rows + [reply])[i] && mid.rows[j] == (mid.rows + [reply])[j];
    assert RowValid(mid, m);
    UserRowKeeps(s, mid, m);
  }

  lemma ReplyRowKeeps(s: State, s': State, reply: Message)
    requires RowsValid(s) && Grows(s, s') && s'.rows == s.rows + [reply] && Unique(s'.rows)
    requires reply.author.Assistant? && RowValid(s', reply) && reply.metadata !in s.written
    ensures RowsValid(s')
  {
    forall i: nat | i < |s.rows|
      ensures RowValid(s', s'.rows[i]) && (s.rows[i].author.Assistant? ==> s.rows[i].metadata != reply.metadata) {
      assert RowValid(s, s.rows[i]);
      RowStays(s, s', s.rows[i]);
    }
  }

  lemma WriteCompletes(s: State, s': State, q: Queued, users: seq<Message>, reply: Message)
    requires Valid(s) && QueuedValid(s, q) && Grows(s, s') && s'.rows == users + [reply]
             && s'.written == s.written + {q.turn}
    requires reply.author.Assistant? && reply.metadata == q.turn
    requires |q.messages| == 2 ==> HasRow(users, q.messages[0].key.value)
    ensures WrittenValid(s')
  {
    forall t: nat | t in s.written ensures TurnHasRow(s', t) && HasReply(s'.rows, t) {
      TurnHasRowStays(s, s', t);
      HasReplyStays(s, s', t);
    }
    assert s'.rows[|users|] == reply;
    if |q.messages| == 1 {
      TurnHasRowStays(s, s', q.turn);
    } else {
      var key := q.messages[0].key.value;
      var i :| 0 <= i < |users| && users[i].key == Some(key);
      assert s'.rows[i] == users[i] && (q.turn, key) in s'.uses;
      assert HasRow(s'.rows, (q.turn, key).1);
    }
  }

  lemma StepKeepsValid(s: State, e: Event)
    requires Valid(s)
    ensures Valid(Step(s, e)) && Grows(s, Step(s, e))
  {
    if Enabled(s, e) {
      match e
      case Begin(conversation, text) => BeginKeeps(s, conversation, text);
      case Claim(t, uuid) => ClaimKeeps(s, t, uuid);
      case Deliver(key) => DeliverKeeps(s, key);
      case Respond(key) => RespondKeeps(s, key);
      case Sync(t, reply, uuid) =>
        if s.turns[t].text == "" || reply == "" { LeaveKeeps(s, t); } else { SyncKeeps(s, t, reply, uuid); }
      case Write(arrives) => if arrives { ArrivedWriteKeeps(s); } else { LostWriteKeeps(s); }
      case Abandon(t) => LeaveKeeps(s, t);
    }
  }

  /** In every run a slot marked as persisted has its message on the server. */
  lemma {:induction false} RunKeepsValid(s: State, events: seq<Event>)
    requires Valid(s)
    ensures Valid(Run(s, events))
    ensures forall c | c in Run(s, events).slots && Run(s, events).slots[c].persisted ::
              HasRow(Run(s, events).rows, Run(s, events).slots[c].key)
    decreases |events|
  {
    if events == [] {
      assert forall c | c in s.slots :: SlotValid(s, c, s.slots[c]);
    } else {
      StepKeepsValid(s, events[0]);
      RunKeepsValid(Step(s, events[0]), events[1..]);
    }
  }

  /** What a turn was answered is what it ended with. */
  lemma {:induction false} RepliesAreGiven(s: State, events: seq<Event>, t: nat)
    requires t in Run(s, events).replies
    ensures (t in s.replies && Run(s, events).replies[t] == s.replies[t]) ||
            exists k: nat, uuid :: k < |events| && events[k] == Sync(t, Run(s, events).replies[t], uuid)
    decreases |events|
  {
    if events != [] {
      var s', rest := Step(s, events[0]), events[1..];
      RepliesAreGiven(s', rest, t);
      var reply := Run(s', rest).replies[t];
      if k: nat, uuid :| k < |rest| && rest[k] == Sync(t, reply, uuid) {
        assert events[k + 1] == Sync(t, reply, uuid);
      } else if !(t in s.replies && reply == s.replies[t]) {
        assert events[0] == Sync(t, reply, events[0].uuid);
      }
    }
  }

  // ----- Exactly once

  /** Each turn uses one key and each key serves one turn. */
  ghost predicate Exclusive(s: State) {
    forall u, v | u in s.uses && v in s.uses :: Agree(u, v)
  }

  ghost predicate Agree(u: (nat, string), v: (nat, string)) {
    u.0 == v.0 <==> u.1 == v.1
  }

  ghost predicate IsUserRow(s: State, i: nat, t: nat) {
    i < |s.rows| && s.rows[i].author.User? && s.rows[i].metadata == t
  }

  ghost predicate IsReply(s: State, i: nat, t: nat) {
    i < |s.rows| && s.rows[i].author.Assistant? && s.rows[i].metadata == t
  }

  ghost predicate AtMostOnce(s: State) {
    forall t: nat, i: nat, j: nat | IsUserRow(s, i, t) && IsUserRow(s, j, t) :: i == j
  }

  ghost predicate ExactlyOnce(s: State, t: nat) {
    && (exists i: nat :: IsUserRow(s, i, t) && SaysText(s, s.rows[i], t))
    && (exists i: nat :: IsReply(s, i, t) && SaysReply(s, s.rows[i], t))
    && (forall i: nat, j: nat | IsUserRow(s, i, t) && IsUserRow(s, j, t) :: i == j)
    && (forall i: nat, j: nat | IsReply(s, i, t) && IsReply(s, j, t) :: i == j)
  }

  lemma ExclusiveIsAtMostOnce(s: State)
    requires Valid(s) && Exclusive(s)
    ensures AtMostOnce(s)
  {
    forall t: nat, i: nat, j: nat | IsUserRow(s, i, t) && IsUserRow(s, j, t) ensures i == j {
      assert RowValid(s, s.rows[i]) && RowValid(s, s.rows[j]);
      assert Agree((t, s.rows[i].key.value), (t, s.rows[j].key.value));
      SameKeySameRow(s.rows, i, j);
    }
  }

  lemma SameKeySameRow(rows: seq<Message>, i: nat, j: nat)
    requires Unique(rows) && i < |rows| && j < |rows| && rows[i].key.Some? && rows[j].key == rows[i].key
    ensures i == j
  {
    assert i < j ==> Clash(rows[i], rows[j]);
    assert j < i ==> Clash(rows[j], rows[i]);
  }

  /** A queued write that arrived leaves one user row and one reply for its turn. */
  lemma WrittenIsExactlyOnce(s: State, t: nat)
    requires Valid(s) && Exclusive(s) && t in s.written
    ensures ExactlyOnce(s, t)
  {
    ExclusiveIsAtMostOnce(s);
    var u :| u in s.uses && u.0 == t && HasRow(s.rows, u.1);
    var i: nat :| i < |s.rows| && s.rows[i].key == Some(u.1);
    assert RowValid(s, s.rows[i]);
    assert Agree((s.rows[i].metadata, u.1), u);
    assert IsUserRow(s, i, t);
    var j: nat :| j < |s.rows| && s.rows[j].author.Assistant? && s.rows[j].metadata == t;
    assert IsReply(s, j, t);
  }

  // ----- When a step keeps the keys exclusive

  ghost predicate SentBefore(s: State, t: nat) {
    exists u :: u in s.uses && u.0 == t
  }

  /**
    A claim that finds no slot of its text must be the turn's first, and the slot a finished turn finds
    must be its own; without one, nothing of the turn may have been sent.
   */
  ghost predicate Clean(s: State, e: Event) {
    Enabled(s, e) ==>
      match e
      case Claim(t, _) => SlotMatches(s, t) || !SentBefore(s, t)
      case Sync(t, reply, _) =>
        s.turns[t].text != "" && reply != "" ==>
          if SlotMatches(s, t) then s.slots[s.turns[t].conversation].owner == t else !SentBefore(s, t)
      case _ => true
  }

  lemma NewKey(s: State, s': State, t: nat, uuid: string)
    requires Exclusive(s) && FreshKey(s, uuid) && s'.uses == s.uses + {(t, uuid)}
    ensures Exclusive(s') <==> !SentBefore(s, t)
  {
    if u :| u in s.uses && u.0 == t {
      assert u in s'.uses && (t, uuid) in s'.uses && !Agree(u, (t, uuid));
    }
  }

  lemma SharedKey(s: State, s': State, t: nat, key: string, owner: nat)
    requires Exclusive(s) && (owner, key) in s.uses && s'.uses == s.uses + {(t, key)}
    ensures Exclusive(s') <==> owner == t
  {
    if owner == t {
      assert s'.uses == s.uses;
    } else {
      assert (owner, key) in s'.uses && (t, key) in s'.uses && !Agree((owner, key), (t, key));
    }
  }

  /** A step keeps the keys exclusive if and only if it is clean. */
  lemma CleanStepsKeepExclusive(s: State, e: Event)
    requires Valid(s) && Exclusive(s)
    ensures Exclusive(Step(s, e)) <==> Clean(s, e)
  {
    if Enabled(s, e) {
      match e
      case Claim(t, uuid) =>
        if SlotMatches(s, t) {
          assert SlotValid(s, s.turns[t].conversation, s.slots[s.turns[t].conversation]);
        } else {
          NewKey(s, Step(s, e), t, uuid);
        }
      case Sync(t, reply, uuid) =>
        if s.turns[t].text != "" && reply != "" {
          if SlotMatches(s, t) {
            var slot := s.slots[s.turns[t].conversation];
            assert SlotValid(s, s.turns[t].conversation, slot) && RequestValid(s, slot.key, s.requests[slot.key]);
            SharedKey(s, Step(s, e), t, slot.key, slot.owner);
          } else {
            NewKey(s, Step(s, e), t, uuid);
          }
        }
      case _ =>
    }
  }

  ghost predicate CleanRun(s: State, events: seq<Event>)
    decreases |events|
  {
    events == [] || (Clean(s, events[0]) && CleanRun(Step(s, events[0]), events[1..]))
  }

  lemma {:induction false} SharedStaysShared(s: State, events: seq<Event>)
    requires Valid(s) && !Exclusive(s)
    ensures !Exclusive(Run(s, events))
    decreases |events|
  {
    if events != [] {
      StepKeepsValid(s, events[0]);
      var u, v :| u in s.uses && v in s.uses && !Agree(u, v);
      assert u in Step(s, events[0]).uses && v in Step(s, events[0]).uses;
      SharedStaysShared(Step(s, events[0]), events[1..]);
    }
  }

  lemma {:induction false} CleanRunsAreExclusive(s: State, events: seq<Event>)
    requires Valid(s) && Exclusive(s)
    ensures Exclusive(Run(s, events)) <==> CleanRun(s, events)
    decreases |events|
  {
    if events != [] {
      StepKeepsValid(s, events[0]);
      CleanStepsKeepExclusive(s, events[0]);
      if Clean(s, events[0]) {
        CleanRunsAreExclusive(Step(s, events[0]), events[1..]);
      } else {
        SharedStaysShared(Step(s, events[0]), events[1..]);
      }
    }
  }

  /** Clean runs store each turn's user message at most once, and exactly once with its reply when the write arrives. */
  lemma CleanRunsAreExactlyOnce(events: seq<Event>)
    requires CleanRun(EMPTY, events)
    ensures AtMostOnce(Run(EMPTY, events))
    ensures forall t: nat | t in Run(EMPTY, events).written :: ExactlyOnce(Run(EMPTY, events), t)
  {
    RunKeepsValid(EMPTY, events);
    CleanRunsAreExclusive(EMPTY, events);
    ExclusiveIsAtMostOnce(Run(EMPTY, events));
    forall t: nat | t in Run(EMPTY, events).written ensures ExactlyOnce(Run(EMPTY, events), t) {
      WrittenIsExactlyOnce(Run(EMPTY, events), t);
    }
  }

  // ----- Serial turns with timely prefetches

  /** A turn begins when the one before it is synced, and its prefetch claims the slot before its own end. */
  ghost predicate Disciplined(s: State, e: Event) {
    Enabled(s, e) ==>
      match e
      case Begin(conversation, _) =>
        forall t: nat | t < |s.turns| && s.turns[t].conversation == conversation :: s.turns[t].phase.Synced?
      case Claim(t, _) => s.turns[t].phase.Open?
      case Sync(t, reply, _) => s.turns[t].text != "" && reply != ""
      case Abandon(_) => false
      case _ => true
  }

  ghost predicate DisciplinedRun(s: State, events: seq<Event>)
    decreases |events|
  {
    events == [] || (Disciplined(s, events[0]) && DisciplinedRun(Step(s, events[0]), events[1..]))
  }

  ghost predicate OwnsSlot(s: State, t: nat)
    requires t < |s.turns|
  {
    s.turns[t].conversation in s.slots && s.slots[s.turns[t].conversation].owner == t
  }

  ghost predicate SerialTurns(s: State) {
    forall t: nat, t': nat | t < t' < |s.turns| && s.turns[t].conversation == s.turns[t'].conversation ::
      s.turns[t].phase.Synced?
  }

  ghost predicate OwnersOpen(s: State) {
    forall c | c in s.slots :: s.slots[c].owner < |s.turns| && s.turns[s.slots[c].owner].phase.Open?
  }

  ghost predicate SendersOwnSlots(s: State) {
    forall t: nat | t < |s.turns| && s.turns[t].phase.Open? && SentBefore(s, t) :: OwnsSlot(s, t)
  }

  ghost predicate Tidy(s: State) {
    SerialTurns(s) && OwnersOpen(s) && SendersOwnSlots(s)
  }

  /** The only open turn of a conversation is the one its slot can belong to. */
  lemma TidySlot(s: State, t: nat)
    requires Valid(s) && Tidy(s) && t < |s.turns| && s.turns[t].phase.Open?
    ensures s.turns[t].conversation in s.slots ==> OwnsSlot(s, t)
    ensures OwnsSlot(s, t) ==> SlotMatches(s, t)
  {
    var c := s.turns[t].conversation;
    if c in s.slots {
      var slot := s.slots[c];
      assert SlotValid(s, c, slot);
      assert s.turns[slot.owner].phase.Open? && s.turns[slot.owner].conversation == c;
    }
  }

  lemma DisciplineIsClean(s: State, e: Event)
    requires Valid(s) && Tidy(s) && Disciplined(s, e)
    ensures Clean(s, e)
  {
    if Enabled(s, e) && (e.Claim? || e.Sync?) { TidySlot(s, e.turn); }
  }

  /** A step that neither claims nor releases a slot, nor ends a turn. */
  lemma QuietStepKeepsTidy(s: State, s': State)
    requires Tidy(s) && s'.uses == s.uses && SameOwners(s, s')
    requires s.turns <= s'.turns && (forall u | u in s.uses :: u.0 < |s.turns|)
    requires forall t: nat, t': nat | t < t' < |s'.turns| && |s.turns| <= t'
             && s'.turns[t].conversation == s'.turns[t'].conversation ::
               s'.turns[t].phase.Synced?
    ensures Tidy(s')
  {
    forall t: nat | t < |s'.turns| && s'.turns[t].phase.Open? && SentBefore(s', t) ensures OwnsSlot(s', t) {
      var u :| u in s.uses && u.0 == t;
      assert SentBefore(s, t) && OwnsSlot(s, t);
    }
    forall t: nat, t': nat | t < t' < |s.turns| && s'.turns[t].conversation == s'.turns[t'].conversation
      ensures s'.turns[t].phase.Synced? {
      assert s.turns[t] == s'.turns[t] && s.turns[t'] == s'.turns[t'];
    }
    forall c | c in s'.slots ensures s'.slots[c].owner < |s'.turns| && s'.turns[s'.slots[c].owner].phase.Open? {
      assert s'.turns[s.slots[c].owner] == s.turns[s.slots[c].owner];
    }
  }

  ghost predicate SameOwners(s: State, s': State) {
    s'.slots.Keys == s.slots.Keys && forall c | c in s.slots :: s'.slots[c].owner == s.slots[c].owner
  }

  lemma ClaimKeepsTidy(s: State, t: nat, uuid: string)
    requires Valid(s) && Tidy(s) && Enabled(s, Claim(t, uuid)) && s.turns[t].phase.Open?
    ensures Tidy(ClaimSlot(s, t, uuid))
  {
    TidySlot(s, t);
    if SlotMatches(s, t) {
      assert SlotValid(s, s.turns[t].conversation, s.slots[s.turns[t].conversation]);
    } else {
      FirstClaimKeeps(s, ClaimSlot(s, t, uuid), t, uuid);
    }
  }

  lemma FirstClaimKeeps(s: State, s': State, t: nat, uuid: string)
    requires Tidy(s) && t < |s.turns| && s.turns[t].phase.Open? && s.turns[t].conversation !in s.slots
    requires s'.turns == s.turns && s'.uses == s.uses + {(t, uuid)}
    requires s'.slots == s.slots[s.turns[t].conversation := Slot(s.turns[t].text, uuid, true, false, t)]
    ensures Tidy(s')
  {
    forall t': nat | t' < |s'.turns| && s'.turns[t'].phase.Open? && SentBefore(s', t') && t' != t
      ensures OwnsSlot(s', t') {
      var u :| u in s'.uses && u.0 == t';
      assert SentBefore(s, t') && OwnsSlot(s, t');
    }
  }

  lemma SyncKeepsTidy(s: State, t: nat, reply: string, uuid: string)
    requires Valid(s) && Tidy(s) && Enabled(s, Sync(t, reply, uuid))
    ensures Tidy(EndTurn(s, t, reply, uuid))
  {
    TidySlot(s, t);
    var s' := EndTurn(s, t, reply, uuid);
    forall c | c in s.slots && c != s.turns[t].conversation ensures s.slots[c].owner != t {
      assert SlotValid(s, c, s.slots[c]);
    }
    EndedTurnKeeps(s, s', t);
  }

  lemma EndedTurnKeeps(s: State, s': State, t: nat)
    requires Tidy(s) && t < |s.turns| && s'.turns == s.turns[t := s.turns[t].(phase := Synced)]
             && s'.slots == s.slots - {s.turns[t].conversation}
    requires s.turns[t].phase.Open? && forall u | u in s'.uses :: u in s.uses || u.0 == t
    requires forall c | c in s.slots && c != s.turns[t].conversation :: s.slots[c].owner != t
    ensures Tidy(s')
  {
    forall t': nat | t' < |s'.turns| && s'.turns[t'].phase.Open? && SentBefore(s', t') ensures OwnsSlot(s', t') {
      var u :| u in s'.uses && u.0 == t';
      assert SentBefore(s, t') && OwnsSlot(s, t');
      assert t' < t ==> s.turns[t'].conversation != s.turns[t].conversation;
      assert t < t' ==> s.turns[t].conversation != s.turns[t'].conversation;
    }
  }

  /** What happens to messages under way touches no turn and no slot's owner. */
  lemma NetworkIsQuiet(s: State, e: Event)
    requires e.Deliver? || e.Respond? || e.Write?
    ensures var s' := Step(s, e); s'.turns == s.turns && s'.uses == s.uses && SameOwners(s, s')
  {
  }

  lemma DisciplineKeepsTidy(s: State, e: Event)
    requires Valid(s) && Tidy(s) && Disciplined(s, e)
    ensures Tidy(Step(s, e))
  {
    if Enabled(s, e) {
      match e
      case Claim(t, uuid) => ClaimKeepsTidy(s, t, uuid);
      case Sync(t, reply, uuid) => SyncKeepsTidy(s, t, reply, uuid);
      case _ => QuietKeepsTidy(s, e);
    }
  }

  lemma QuietKeepsTidy(s: State, e: Event)
    requires RequestsValid(s) && Tidy(s) && Disciplined(s, e) && Enabled(s, e) && !e.Claim? && !e.Sync?
    ensures Tidy(Step(s, e))
  {
    if !e.Begin? && !e.Abandon? { NetworkIsQuiet(s, e); }
    QuietStepKeepsTidy(s, Step(s, e));
  }

  /** Serial turns whose prefetches are timely are exactly-once, whatever the network does. */
  lemma {:induction false} DisciplinedRunsAreClean(s: State, events: seq<Event>)
    requires Valid(s) && Tidy(s) && DisciplinedRun(s, events)
    ensures CleanRun(s, events)
    decreases |events|
  {
    if events != [] {
      DisciplineIsClean(s, events[0]);
      StepKeepsValid(s, events[0]);
      DisciplineKeepsTidy(s, events[0]);
      DisciplinedRunsAreClean(Step(s, events[0]), events[1..]);
    }
  }

  lemma EmptyIsTidy()
    ensures Valid(EMPTY) && Exclusive(EMPTY) && Tidy(EMPTY)
  {
  }

  /**
    From an empty start, however the network delays, repeats and loses, disciplined turns are stored at most
    once, and exactly once with their replies when their queued writes arrive.
   */
  lemma DisciplinedRunsAreExactlyOnce(events: seq<Event>)
    requires DisciplinedRun(EMPTY, events)
    ensures AtMostOnce(Run(EMPTY, events))
    ensures forall t: nat | t in Run(EMPTY, events).written :: ExactlyOnce(Run(EMPTY, events), t)
  {
    EmptyIsTidy();
    DisciplinedRunsAreClean(EMPTY, events);
    CleanRunsAreExactlyOnce(events);
  }

  // ----- When the network alone can store a turn twice

  /** What happens when the plugin does nothing more: requests are delivered and answered, writes arrive or are lost. */
  ghost predicate Network(events: seq<Event>) {
    forall k | 0 <= k < |events| :: events[k].Deliver? || events[k].Respond? || events[k].Write?
  }

  ghost predicate Stored(s: State, key: string, t: nat) {
    exists i: nat :: IsUserRow(s, i, t) && s.rows[i].key == Some(key)
  }

  ghost predicate Requested(s: State, key: string, t: nat) {
    key in s.requests && s.requests[key].metadata == t
  }

  ghost predicate SentBy(q: Queued, key: string, t: nat) {
    q.turn == t && |q.messages| == 2 && q.messages[0].key == Some(key)
  }

  ghost predicate Waiting(s: State, key: string, t: nat) {
    exists i: nat :: i < |s.queue| && SentBy(s.queue[i], key, t)
  }

  /** The turn's message is on the server under this key, or can still get there. */
  ghost predicate AtLarge(s: State, key: string, t: nat) {
    Stored(s, key, t) || (!HasRow(s.rows, key) && (Requested(s, key, t) || Waiting(s, key, t)))
  }

  ghost predicate SecondKeyAtLarge(s: State) {
    exists t: nat, key, key' :: key != key' && AtLarge(s, key, t) && AtLarge(s, key', t)
  }

  lemma StoredIsAtLarge(s: State, i: nat, t: nat)
    requires Valid(s) && IsUserRow(s, i, t)
    ensures s.rows[i].key.Some? && Stored(s, s.rows[i].key.value, t)
  {
    assert RowValid(s, s.rows[i]);
  }

  /** With one key of each turn at large no turn is stored twice. */
  lemma OneKeyIsAtMostOnce(s: State)
    requires Valid(s) && !SecondKeyAtLarge(s)
    ensures AtMostOnce(s)
  {
    forall t: nat, i: nat, j: nat | IsUserRow(s, i, t) && IsUserRow(s, j, t) ensures i == j {
      StoredIsAtLarge(s, i, t);
      StoredIsAtLarge(s, j, t);
      assert AtLarge(s, s.rows[i].key.value, t) && AtLarge(s, s.rows[j].key.value, t);
      SameKeySameRow(s.rows, i, j);
    }
  }

  /** The rows a network step adds: at most the one user message it was carrying. */
  lemma NetworkAdds(s: State, e: Event)
    requires Valid(s) && (e.Deliver? || e.Respond? || e.Write?)
    ensures var s' := Step(s, e);
            && s.rows <= s'.rows && s'.requests == s.requests
            && (s'.queue == s.queue || (s.queue != [] && s'.queue == s.queue[1..]))
            && (forall i: nat | |s.rows| <= i < |s'.rows| && s'.rows[i].author.User? ::
                  HasKey(s'.rows[i]) && AtLarge(s, s'.rows[i].key.value, s'.rows[i].metadata))
  {
    if Enabled(s, e) && e.Deliver? {
      DeliveryAdds(s, e.key);
    } else if Enabled(s, e) && e.Write? && e.arrives {
      StepKeepsValid(s, e);
      WriteAdds(s);
    }
  }

  lemma DeliveryAdds(s: State, key: string)
    requires Valid(s) && key in s.requests
    ensures var s' := Step(s, Deliver(key));
            && s' == s.(rows := s'.rows, delivered := s'.delivered)
            && (s'.rows == s.rows || (!HasRow(s.rows, key) && s'.rows == s.rows + [s.requests[key]]))
            && s.requests[key].key == Some(key) && HasKey(s.requests[key])
  {
    assert RequestValid(s, key, s.requests[key]);
    RecordUser(s.rows, s.requests[key]);
  }

  lemma WriteCarries(s: State, q: Queued, users: seq<Message>, reply: Message)
    requires QueuedValid(s, q) && |q.messages| == 2 && q.messages[0].key.Some?
    requires users == s.rows + [q.messages[0]] && Unique(users + [reply])
    ensures !HasRow(s.rows, q.messages[0].key.value)
  {
    if i :| 0 <= i < |s.rows| && s.rows[i].key == q.messages[0].key {
      assert Clash((users + [reply])[i], (users + [reply])[|s.rows|]);
    }
  }

  lemma WriteAdds(s: State)
    requires Valid(s) && s.queue != []
    ensures var s' := Step(s, Write(true));
            forall i: nat | |s.rows| <= i < |s'.rows| && s'.rows[i].author.User? ::
              HasKey(s'.rows[i]) && AtLarge(s, s'.rows[i].key.value, s'.rows[i].metadata)
  {
    var q, s' := s.queue[0], Step(s, Write(true));
    assert QueuedValid(s, q);
    var users, reply := WriteRecords(s, q);
    if |q.messages| == 2 && users == s.rows + [q.messages[0]] {
      var key := q.messages[0].key.value;
      WriteCarries(s, q, users, reply);
      assert SentBy(q, key, q.turn);
    }
  }

  lemma MoreRowsHaveIt(rows: seq<Message>, rows': seq<Message>, key: string)
    requires rows <= rows'
    ensures HasRow(rows, key) ==> HasRow(rows', key)
  {
    if i :| 0 <= i < |rows| && rows[i].key == Some(key) { assert rows'[i].key == Some(key); }
  }

  /** The network brings no key of a turn to large. */
  lemma NetworkFreesNoKey(s: State, e: Event, key: string, t: nat)
    requires Valid(s) && (e.Deliver? || e.Respond? || e.Write?) && AtLarge(Step(s, e), key, t)
    ensures AtLarge(s, key, t)
  {
    var s' := Step(s, e);
    NetworkAdds(s, e);
    if i: nat :| IsUserRow(s', i, t) && s'.rows[i].key == Some(key) {
      if i < |s.rows| { assert IsUserRow(s, i, t); }
    } else {
      assert HasRow(s.rows, key) ==> HasRow(s'.rows, key) by { MoreRowsHaveIt(s.rows, s'.rows, key); }
      if i: nat :| i < |s'.queue| && SentBy(s'.queue[i], key, t) {
        assert s'.queue[i] == s.queue[i] || s'.queue[i] == s.queue[i + 1];
      }
    }
  }

  lemma {:induction false} NetworkKeepsOneKey(s: State, events: seq<Event>)
    requires Valid(s) && !SecondKeyAtLarge(s) && Network(events)
    ensures Valid(Run(s, events)) && !SecondKeyAtLarge(Run(s, events))
    decreases |events|
  {
    if events != [] {
      var s' := Step(s, events[0]);
      StepKeepsValid(s, events[0]);
      if t: nat, key, key' :| key != key' && AtLarge(s', key, t) && AtLarge(s', key', t) {
        NetworkFreesNoKey(s, events[0], key, t);
        NetworkFreesNoKey(s, events[0], key', t);
      }
      NetworkKeepsOneKey(s', events[1..]);
    }
  }

  lemma {:induction false} RunParts(s: State, before: seq<Event>, after: seq<Event>)
    ensures Run(s, before + after) == Run(Run(s, before), after)
    decreases |before|
  {
    if before == [] {
      assert before + after == after;
    } else {
      assert (before + after)[1..] == before[1..] + after;
      RunParts(Step(s, before[0]), before[1..], after);
    }
  }

  lemma RunOne(s: State, e: Event)
    ensures Run(s, [e]) == Step(s, e)
  {
  }

  /** A request under way can be delivered now, whatever else waits. */
  lemma DeliverStores(s: State, key: string, t: nat)
    requires Valid(s) && Requested(s, key, t) && !HasRow(s.rows, key)
    ensures var s' := Step(s, Deliver(key));
            && Stored(s', key, t) && s'.rows == s.rows + [s.requests[key]] && s.requests[key].key == Some(key)
            && s'.requests == s.requests && s'.queue == s.queue
  {
    DeliverAdds(s, key);
    assert RequestValid(s, key, s.requests[key]);
    assert IsUserRow(Step(s, Deliver(key)), |s.rows|, t);
  }

  /** The queued writes before it are lost, then the turn's own arrives. */
  lemma {:induction false} WriteStores(s: State, i: nat, key: string, t: nat) returns (events: seq<Event>)
    requires Valid(s) && i < |s.queue| && SentBy(s.queue[i], key, t) && !HasRow(s.rows, key)
    ensures Network(events) && Stored(Run(s, events), key, t) && Grows(s, Run(s, events))
    decreases i
  {
    if i == 0 {
      events := [Write(true)];
      RunOne(s, Write(true));
      HeadStores(s, key, t);
    } else {
      var s' := Step(s, Write(false));
      StepKeepsValid(s, Write(false));
      assert s'.queue[i - 1] == s.queue[i];
      var later := WriteStores(s', i - 1, key, t);
      events := [Write(false)] + later;
      assert events[1..] == later;
      GrowsOn(s, s', Run(s', later));
    }
  }

  lemma GrowsOn(s: State, s': State, s'': State)
    requires Grows(s, s') && Grows(s', s'')
    ensures Grows(s, s'')
  {
  }

  lemma HeadStores(s: State, key: string, t: nat)
    requires Valid(s) && s.queue != [] && SentBy(s.queue[0], key, t) && !HasRow(s.rows, key)
    ensures Stored(Step(s, Write(true)), key, t) && Grows(s, Step(s, Write(true)))
  {
    StepKeepsValid(s, Write(true));
    var q, s' := s.queue[0], Step(s, Write(true));
    assert QueuedValid(s, q);
    var users, reply := WriteRecords(s, q);
    assert users == s.rows + [q.messages[0]];
    assert IsUserRow(s', |s.rows|, t) && s'.rows[|s.rows|].key == Some(key);
  }

  /** A key of the turn at large can be brought to the server, beside what is stored. */
  lemma AtLargeArrives(s: State, key: string, t: nat) returns (events: seq<Event>)
    requires Valid(s) && AtLarge(s, key, t)
    ensures Network(events) && Stored(Run(s, events), key, t) && Grows(s, Run(s, events))
  {
    if Stored(s, key, t) {
      events := [];
    } else if Requested(s, key, t) {
      events := [Deliver(key)];
      RunOne(s, Deliver(key));
      StepKeepsValid(s, Deliver(key));
      DeliverStores(s, key, t);
    } else {
      var i: nat :| i < |s.queue| && SentBy(s.queue[i], key, t);
      events := WriteStores(s, i, key, t);
    }
  }

  lemma TwoStoredIsTwice(s: State, key: string, key': string, t: nat)
    requires key != key' && Stored(s, key, t) && Stored(s, key', t)
    ensures !AtMostOnce(s)
  {
    var i: nat :| IsUserRow(s, i, t) && s.rows[i].key == Some(key);
    var j: nat :| IsUserRow(s, j, t) && s.rows[j].key == Some(key');
    assert i != j;
  }

  lemma StoredStays(s: State, s': State, key: string, t: nat)
    requires Stored(s, key, t) && Grows(s, s')
    ensures Stored(s', key, t)
  {
    var i: nat :| IsUserRow(s, i, t) && s.rows[i].key == Some(key);
    assert IsUserRow(s', i, t) && s'.rows[i] == s.rows[i];
  }

  /** A key that is no queued write can be stored without getting in the way of another. */
  lemma FirstIsStored(s: State, first: string, second: string, t: nat) returns (events: seq<Event>)
    requires Valid(s) && first != second && AtLarge(s, first, t) && AtLarge(s, second, t)
    requires Stored(s, first, t) || Requested(s, first, t)
    ensures Network(events) && Valid(Run(s, events))
    ensures Stored(Run(s, events), first, t) && AtLarge(Run(s, events), second, t)
  {
    if Stored(s, first, t) {
      events := [];
    } else {
      events := [Deliver(first)];
      RunOne(s, Deliver(first));
      StepKeepsValid(s, Deliver(first));
      DeliverStores(s, first, t);
      StillAtLarge(s, Step(s, Deliver(first)), second, t);
    }
  }

  lemma FirstThenSecond(s: State, first: string, second: string, t: nat) returns (events: seq<Event>)
    requires Valid(s) && first != second && AtLarge(s, first, t) && AtLarge(s, second, t)
    requires Stored(s, first, t) || Requested(s, first, t)
    ensures Network(events) && !AtMostOnce(Run(s, events))
  {
    var start := FirstIsStored(s, first, second, t);
    var s' := Run(s, start);
    var end := AtLargeArrives(s', second, t);
    RunParts(s, start, end);
    StoredStays(s', Run(s', end), first, t);
    TwoStoredIsTwice(Run(s', end), first, second, t);
    events := start + end;
  }

  lemma StillAtLarge(s: State, s': State, key: string, t: nat)
    requires AtLarge(s, key, t) && Grows(s, s') && s'.requests == s.requests && s'.queue == s.queue
    requires HasRow(s'.rows, key) ==> HasRow(s.rows, key)
    ensures AtLarge(s', key, t)
  {
    if Stored(s, key, t) { StoredStays(s, s', key, t); }
  }

  /** A turn is in the queue once, so of two keys at large one is stored or requested. */
  lemma OneIsNotQueued(s: State, key: string, key': string, t: nat)
    requires Valid(s) && key != key' && AtLarge(s, key, t) && AtLarge(s, key', t)
    ensures Stored(s, key, t) || Requested(s, key, t) || Stored(s, key', t) || Requested(s, key', t)
  {
  }

  /** The network can store some turn twice exactly when two keys of one turn are at large. */
  lemma NetworkCanDuplicate(s: State)
    requires Valid(s)
    ensures (exists events :: Network(events) && !AtMostOnce(Run(s, events))) <==> SecondKeyAtLarge(s)
  {
    if SecondKeyAtLarge(s) {
      var t: nat, key, key' :| key != key' && AtLarge(s, key, t) && AtLarge(s, key', t);
      OneIsNotQueued(s, key, key', t);
      var events: seq<Event>;
      if Stored(s, key, t) || Requested(s, key, t) {
        events := FirstThenSecond(s, key, key', t);
      } else {
        events := FirstThenSecond(s, key', key, t);
      }
      assert Network(events) && !AtMostOnce(Run(s, events));
    }
    if events :| Network(events) && !AtMostOnce(Run(s, events)) {
      if !SecondKeyAtLarge(s) {
        NetworkKeepsOneKey(s, events);
        OneKeyIsAtMostOnce(Run(s, events));
      }
    }
  }

  // ----- What goes wrong otherwise

  lemma RunTwo(s: State, e: Event, e': Event)
    ensures Run(s, [e, e']) == Step(Step(s, e), e')
  {
    assert [e, e'][1..] == [e'] && [e'][1..] == [];
    assert Run(Step(s, e), [e']) == Run(Step(Step(s, e), e'), []);
  }

  /** A prefetch that claims its slot only after the turn was stored sends the message under a second key. */
  lemma LateClaimDuplicates(s: State, t: nat, i: nat, uuid: string)
    requires Valid(s) && Enabled(s, Claim(t, uuid)) && !SlotMatches(s, t) && IsUserRow(s, i, t)
    ensures !AtMostOnce(Run(s, [Claim(t, uuid), Deliver(uuid)]))
  {
    RunTwo(s, Claim(t, uuid), Deliver(uuid));
    var claimed := Step(s, Claim(t, uuid));
    StepKeepsValid(s, Claim(t, uuid));
    FreshKeyHasNoRow(s, uuid);
    DeliverAdds(claimed, uuid);
    var s' := Step(claimed, Deliver(uuid));
    assert IsUserRow(s', i, t) && IsUserRow(s', |s.rows|, t);
  }

  lemma DeliverAdds(s: State, key: string)
    requires Valid(s) && key in s.requests && !HasRow(s.rows, key)
    ensures Step(s, Deliver(key)).rows == s.rows + [s.requests[key]] && s.requests[key].author.User?
  {
    assert RequestValid(s, key, s.requests[key]) && HasKey(s.requests[key]);
    RecordUser(s.rows, s.requests[key]);
  }

  lemma FreshKeyHasNoRow(s: State, uuid: string)
    requires Valid(s) && FreshKey(s, uuid)
    ensures !HasRow(s.rows, uuid)
  {
    forall i | 0 <= i < |s.rows| ensures s.rows[i].key != Some(uuid) {
      assert RowValid(s, s.rows[i]);
    }
  }

  lemma NothingSentNothingStored(s: State, t: nat, i: nat)
    requires Valid(s) && !SentBefore(s, t)
    ensures !IsUserRow(s, i, t)
  {
    if i < |s.rows| {
      assert RowValid(s, s.rows[i]);
      if s.rows[i].author.User? { assert (s.rows[i].metadata, s.rows[i].key.value) in s.uses; }
    }
  }

  lemma ReplyAlone(s: State, t: nat, answer: Message)
    requires Valid(s) && s.queue == [Queued(t, [answer])] && answer.key.None? && answer.source.item.None?
    ensures Step(s, Write(true)).rows == s.rows + [answer] && t in Step(s, Write(true)).written
  {
    RecordReply(s.rows, [], answer);
    assert [] + [answer] == [answer];
  }

  lemma LeftoverIsQueued(s: State, t: nat, reply: string, uuid: string) returns (answer: Message)
    requires s.queue == [] && Enabled(s, Sync(t, reply, uuid)) && s.turns[t].text != "" && reply != ""
    requires SlotMatches(s, t) && s.slots[s.turns[t].conversation].persisted
    ensures var s' := Step(s, Sync(t, reply, uuid));
            s'.queue == [Queued(t, [answer])] && s'.rows == s.rows && answer.author.Assistant?
            && answer.key.None? && answer.source.item.None?
  {
    answer := AssistantMessage(s.turns[t], reply, t);
    assert [] + [Queued(t, [answer])] == [Queued(t, [answer])];
  }

  /** A slot left behind by another turn with the same text makes this turn's message count as stored: it is lost. */
  lemma LeftoverSlotLosesTheMessage(s: State, t: nat, reply: string, uuid: string)
    requires Valid(s) && s.queue == [] && Enabled(s, Sync(t, reply, uuid)) && s.turns[t].text != "" && reply != ""
    requires !SentBefore(s, t) && SlotMatches(s, t) && s.slots[s.turns[t].conversation].persisted
    ensures var s' := Run(s, [Sync(t, reply, uuid), Write(true)]);
            t in s'.written && forall i: nat :: !IsUserRow(s', i, t)
  {
    RunTwo(s, Sync(t, reply, uuid), Write(true));
    var synced := Step(s, Sync(t, reply, uuid));
    var answer := LeftoverIsQueued(s, t, reply, uuid);
    StepKeepsValid(s, Sync(t, reply, uuid));
    ReplyAlone(synced, t, answer);
    forall i: nat ensures !IsUserRow(Step(synced, Write(true)), i, t) {
      NothingSentNothingStored(s, t, i);
    }
  }

  ghost predicate HasUserRow(s: State, t: nat) {
    exists i: nat :: IsUserRow(s, i, t)
  }

  /**
    A queued write that arrives leaves its turn with a row of its own exactly when the turn had one before, or
    when the write carries the user's message under a key that no row has yet.
   */
  lemma WriteKeepsTheMessage(s: State)
    requires Valid(s) && s.queue != []
    ensures var q := s.queue[0];
            HasUserRow(Step(s, Write(true)), q.turn) <==>
            HasUserRow(s, q.turn) || exists key :: SentBy(q, key, q.turn) && !HasRow(s.rows, key)
  {
    var q, s' := s.queue[0], Step(s, Write(true));
    StepKeepsValid(s, Write(true));
    assert QueuedValid(s, q);
    if i: nat :| IsUserRow(s, i, q.turn) { assert IsUserRow(s', i, q.turn); }
    if key :| SentBy(q, key, q.turn) && !HasRow(s.rows, key) {
      HeadStores(s, key, q.turn);
    }
    if i: nat :| IsUserRow(s', i, q.turn) {
      OwnRowComesFrom(s, i);
    }
  }

  lemma OwnRowComesFrom(s: State, i: nat)
    requires Valid(s) && s.queue != [] && IsUserRow(Step(s, Write(true)), i, s.queue[0].turn)
    ensures HasUserRow(s, s.queue[0].turn) ||
            exists key :: SentBy(s.queue[0], key, s.queue[0].turn) && !HasRow(s.rows, key)
  {
    var q := s.queue[0];
    assert QueuedValid(s, q);
    var users, reply := WriteRecords(s, q);
    if i < |s.rows| {
      assert IsUserRow(s, i, q.turn);
    } else {
      WriteCarries(s, q, users, reply);
      assert SentBy(q, q.messages[0].key.value, q.turn);
    }
  }

  // ----- Runs from an empty start that go wrong

  const HELLO := Turn("c", "hi", Open)

  /** The turn is stored by its queued write; only then does its prefetch thread claim a slot. */
  const LATE_START := [Begin("c", "hi"), Sync(0, "yes", "k")]
  const LATE_RUN := LATE_START + ([Write(true)] + [Claim(0, "l"), Deliver("l")])

  const SYNCED :=
    EMPTY.(turns := [HELLO.(phase := Synced)], replies := map[0 := "yes"], uses := {(0, "k")},
           queue := [Queued(0, [UserMessage(HELLO, "k", 0), AssistantMessage(HELLO, "yes", 0)])])

  lemma HelloIsSynced()
    ensures Run(EMPTY, LATE_START) == SYNCED && Valid(SYNCED)
  {
    var begun := EMPTY.(turns := [HELLO]);
    assert Step(EMPTY, Begin("c", "hi")) == begun;
    assert Step(begun, Sync(0, "yes", "k")) == SYNCED;
    RunTwo(EMPTY, Begin("c", "hi"), Sync(0, "yes", "k"));
    RunKeepsValid(EMPTY, LATE_START);
  }

  lemma HelloIsStored() returns (s: State)
    requires Valid(SYNCED)
    ensures s == Step(SYNCED, Write(true)) && Valid(s) && IsUserRow(s, 0, 0)
    ensures s.turns == SYNCED.turns && s.slots == map[] && s.uses == SYNCED.uses
  {
    s := Step(SYNCED, Write(true));
    StepKeepsValid(SYNCED, Write(true));
    WriteForm(SYNCED);
    var users, reply := WriteRecords(SYNCED, SYNCED.queue[0]);
    assert users != [] && s.rows[0] == users[0];
  }

  /** So a run from the empty state stores the turn twice. */
  lemma LateRunDuplicates()
    ensures !AtMostOnce(Run(EMPTY, LATE_RUN))
  {
    HelloIsSynced();
    var s := HelloIsStored();
    assert "k"[0] != "l"[0];
    LateClaimDuplicates(s, 0, 0, "l");
    RunOne(SYNCED, Write(true));
    RunParts(SYNCED, [Write(true)], [Claim(0, "l"), Deliver("l")]);
    RunParts(EMPTY, LATE_START, [Write(true)] + [Claim(0, "l"), Deliver("l")]);
  }

  /** A turn is prefetched, answered and abandoned; the next turn says the same and finds its slot. */
  const PREFETCHED := [Begin("c", "hi"), Claim(0, "k")]
  const ANSWERED := [Deliver("k"), Respond("k")]
  const AGAIN := [Abandon(0), Begin("c", "hi")]
  const LEFTOVER_RUN := PREFETCHED + (ANSWERED + (AGAIN + [Sync(1, "yes", "l"), Write(true)]))

  const SENT :=
    EMPTY.(turns := [HELLO], uses := {(0, "k")}, slots := map["c" := Slot("hi", "k", true, false, 0)],
           requests := map["k" := UserMessage(HELLO, "k", 0)])

  lemma HelloIsSent()
    ensures Run(EMPTY, PREFETCHED) == SENT && Valid(SENT)
  {
    var begun := EMPTY.(turns := [HELLO]);
    assert Step(EMPTY, Begin("c", "hi")) == begun;
    assert Step(begun, Claim(0, "k")) == SENT;
    RunTwo(EMPTY, Begin("c", "hi"), Claim(0, "k"));
    RunKeepsValid(EMPTY, PREFETCHED);
  }

  lemma HelloIsAnswered() returns (s: State)
    requires Valid(SENT)
    ensures s == Run(SENT, ANSWERED) && Valid(s)
    ensures s.turns == SENT.turns && s.uses == SENT.uses && s.queue == []
    ensures s.slots == map["c" := Slot("hi", "k", true, true, 0)]
  {
    var delivered := Step(SENT, Deliver("k"));
    assert !HasRow(SENT.rows, "k");
    DeliverAdds(SENT, "k");
    RunTwo(SENT, Deliver("k"), Respond("k"));
    RunKeepsValid(SENT, ANSWERED);
    s := Run(SENT, ANSWERED);
    assert delivered.slots == SENT.slots && "k" in delivered.delivered;
  }

  lemma HelloAgain(s: State) returns (s': State)
    requires Valid(s) && s.turns == SENT.turns && s.uses == SENT.uses && s.queue == []
    requires s.slots == map["c" := Slot("hi", "k", true, true, 0)]
    ensures s' == Run(s, AGAIN) && Valid(s')
    ensures s'.turns == [HELLO.(phase := Abandoned), HELLO]
    ensures s'.uses == SENT.uses && s'.queue == [] && s'.slots == s.slots
  {
    RunTwo(s, Abandon(0), Begin("c", "hi"));
    RunKeepsValid(s, AGAIN);
    s' := Run(s, AGAIN);
    assert Step(s, Abandon(0)).turns == [HELLO.(phase := Abandoned)];
  }

  /** So a run from the empty state writes the second turn without its message. */
  lemma LeftoverRunLosesTheMessage()
    ensures var s := Run(EMPTY, LEFTOVER_RUN);
            1 in s.written && forall i: nat :: !IsUserRow(s, i, 1)
  {
    HelloIsSent();
    var answered := HelloIsAnswered();
    var s := HelloAgain(answered);
    assert "k"[0] != "l"[0];
    LeftoverSlotLosesTheMessage(s, 1, "yes", "l");
    RunParts(answered, AGAIN, [Sync(1, "yes", "l"), Write(true)]);
    RunParts(SENT, ANSWERED, AGAIN + [Sync(1, "yes", "l"), Write(true)]);
    RunParts(EMPTY, PREFETCHED, ANSWERED + (AGAIN + [Sync(1, "yes", "l"), Write(true)]));
  }

  lemma WriteForm(s: State)
    requires Valid(s) && s.queue != []
    ensures RecordAll(s.rows, s.queue[0].messages).Ok? && Unique(s.rows)
    ensures Step(s, Write(true)) ==
            s.(queue := s.queue[1..], rows := RecordAll(s.rows, s.queue[0].messages).value.0,
              written := s.written + {s.queue[0].turn})
  {
    assert QueuedValid(s, s.queue[0]);
    var users, reply := WriteRecords(s, s.queue[0]);
  }

  // ----- The plugin's side

  function SlotOf(slots: map<string, Slot>, conversation: string): Option<Slot> {
    if conversation in slots then Some(slots[conversation]) else None
  }

  /** The reply is stored, after the user's message if that is there and no row has its key. */
  ghost predicate StoresQueued(rows: seq<Message>, rows': seq<Message>, q: Queued) {
    && q.messages != []
    && var first, last := q.messages[0], q.messages[|q.messages| - 1];
       if |q.messages| == 2 && !(exists i :: 0 <= i < |rows| && rows[i].key == first.key) then
         rows' == rows + [first, last]
       else rows' == rows + [last]
  }

  lemma StoresWhatIsQueued(s: State)
    requires Valid(s) && s.queue != []
    ensures StoresQueued(s.rows, Step(s, Write(true)).rows, s.queue[0])
  {
    var q := s.queue[0];
    assert QueuedValid(s, q);
    var users, reply := WriteRecords(s, q);
    if |q.messages| == 2 {
      var first := q.messages[0];
      if users == s.rows + [first] {
        WriteCarries(s, q, users, reply);
        assert s.rows + [first] + [reply] == s.rows + [first, reply];
      }
      assert HasRow(s.rows, first.key.value) <==> exists i :: 0 <= i < |s.rows| && s.rows[i].key == first.key;
    }
  }

  ghost predicate InConversation(m: Message, t: nat, conversation: string) {
    && m.source.provider == "hermes" && m.source.conversation == Some(conversation) && m.source.item.None?
    && m.metadata == t
  }

  /**
    The reply comes last. The user's message comes before it, under the key of the turn's slot if there is
    one, unless that slot knows it to be stored.
   */
  ghost predicate QueuesTurn(q: Queued, slot: Option<Slot>, t: nat, conversation: string, text: string,
        reply: string, uuid: string)
  {
    var own := slot.Some? && slot.value.text == text;
    && q.turn == t && |q.messages| == (if own && slot.value.persisted then 1 else 2)
    && (var last := q.messages[|q.messages| - 1];
        && last.key.None? && last.author.Assistant? && last.content == reply
        && InConversation(last, t, conversation))
    && (|q.messages| == 2 ==>
          var first := q.messages[0];
          && first.key == Some(if own then slot.value.key else uuid) && first.author.User? && first.content == text
          && InConversation(first, t, conversation))
  }

  class Provider {
    var slots: map<string, Slot>
    var queue: seq<Queued>
    ghost var turns: seq<Turn>
    ghost var replies: map<nat, string>
    ghost var requests: map<string, Message>
    ghost var delivered: set<string>
    ghost var rows: seq<Message>
    ghost var written: set<nat>
    ghost var uses: set<(nat, string)>

    ghost function Current(): State
      reads this
    {
      State(turns, replies, slots, requests, delivered, queue, rows, written, uses)
    }

    constructor ()
      ensures Current() == EMPTY && Valid(Current())
    {
      slots, queue, turns, replies, requests := map[], [], [], map[], map[];
      delivered, rows, written, uses := {}, [], {}, {};
    }

    /** Claims the conversation's slot; the first one to do so gets the request it must send. */
    method TurnContext(t: nat, conversation: string, query: string, uuid: string) returns (request: Option<Message>)
      requires Valid(Current()) && Enabled(Current(), Claim(t, uuid))
      requires turns[t].conversation == conversation && turns[t].text == query
      modifies this`slots, this`requests, this`uses
      ensures Current() == Step(old(Current()), Claim(t, uuid)) && Valid(Current())
      ensures request.Some? <==> !SlotMatches(old(Current()), t)
      ensures request.None? ==> slots == old(slots) && requests == old(requests)
      ensures request.Some? ==>
                && request.value.key == Some(uuid) && request.value.author.User? && request.value.content == query
                && InConversation(request.value, t, conversation)
                && requests == old(requests)[uuid := request.value]
                && slots == old(slots)[conversation := Slot(query, uuid, true, false, t)]
    {
      StepKeepsValid(Current(), Claim(t, uuid));
      assert conversation in slots ==> SlotValid(Current(), conversation, slots[conversation]);
      request := StartSlot(t, conversation, query, uuid);
    }

    method StartSlot(t: nat, conversation: string, query: string, uuid: string) returns (request: Option<Message>)
      requires t < |turns| && turns[t].conversation == conversation && turns[t].text == query
      requires conversation in slots ==> slots[conversation].started
      modifies this`slots, this`requests, this`uses
      ensures Current() == ClaimSlot(old(Current()), t, uuid)
      ensures request.Some? <==> !SlotMatches(old(Current()), t)
      ensures request.None? ==> slots == old(slots) && requests == old(requests)
      ensures request.Some? ==>
                && request.value.key == Some(uuid) && request.value.author.User? && request.value.content == query
                && InConversation(request.value, t, conversation)
                && requests == old(requests)[uuid := request.value]
                && slots == old(slots)[conversation := Slot(query, uuid, true, false, t)]
    {
      var slot: Slot;
      if conversation in slots && slots[conversation].text == query {
        slot := slots[conversation];
      } else {
        slot := Slot(query, uuid, false, false, t);
      }
      if slot.started {
        return None;
      }
      slots := slots[conversation := slot.(started := true)];
      var message := Message(Some(slot.key), User, query, Source(PROVIDER, Some(conversation), None), t);
      requests, uses := requests[slot.key := message], uses + {(t, slot.key)};
      return Some(message);
    }

    /** An answer with message ids came back for the request sent under `key`. */
    method AnswerArrives(key: string)
      requires Valid(Current()) && Enabled(Current(), Respond(key))
      modifies this`slots
      ensures Current() == Step(old(Current()), Respond(key)) && Valid(Current())
      ensures slots.Keys == old(slots.Keys)
      ensures forall c | c in slots ::
                slots[c] == if old(slots)[c].key == key then old(slots)[c].(persisted := true) else old(slots)[c]
    {
      StepKeepsValid(Current(), Respond(key));
      MarkSlots(key);
    }

    method MarkSlots(key: string)
      modifies this`slots
      ensures Current() == old(Current()).(slots := MarkPersisted(old(slots), key))
      ensures slots.Keys == old(slots.Keys)
      ensures forall c | c in slots ::
                slots[c] == if old(slots)[c].key == key then old(slots)[c].(persisted := true) else old(slots)[c]
    {
      slots := map c | c in slots :: if slots[c].key == key then slots[c].(persisted := true) else slots[c];
    }

    /** Releases the slot and queues what the server is not known to have. */
    method SyncTurn(t: nat, conversation: string, text: string, reply: string, uuid: string)
      requires Valid(Current()) && Enabled(Current(), Sync(t, reply, uuid))
      requires turns[t].conversation == conversation && turns[t].text == text
      modifies this`slots, this`queue, this`turns, this`replies, this`uses
      ensures Current() == Step(old(Current()), Sync(t, reply, uuid)) && Valid(Current())
      ensures text == "" || reply == "" ==> queue == old(queue) && slots == old(slots) && replies == old(replies)
      ensures text != "" && reply != "" ==>
                && |queue| == |old(queue)| + 1 && queue[..|old(queue)|] == old(queue)
                && QueuesTurn(queue[|old(queue)|], SlotOf(old(slots), conversation), t, conversation, text, reply, uuid)
                && slots == old(slots) - {conversation} && replies == old(replies)[t := reply]
    {
      StepKeepsValid(Current(), Sync(t, reply, uuid));
      if text == "" || reply == "" {
        turns := turns[t := turns[t].(phase := Abandoned)];
      } else {
        QueueTurn(t, conversation, text, reply, uuid);
      }
    }

    method QueueTurn(t: nat, conversation: string, text: string, reply: string, uuid: string)
      requires t < |turns| && turns[t].conversation == conversation && turns[t].text == text
      modifies this`slots, this`queue, this`turns, this`replies, this`uses
      ensures Current() == EndTurn(old(Current()), t, reply, uuid)
      ensures |queue| == |old(queue)| + 1 && queue[..|old(queue)|] == old(queue)
      ensures QueuesTurn(queue[|old(queue)|], SlotOf(old(slots), conversation), t, conversation, text, reply, uuid)
    {
      var key, persisted := uuid, false;
      if conversation in slots && slots[conversation].text == text {
        key, persisted := slots[conversation].key, slots[conversation].persisted;
      }
      slots := slots - {conversation};
      var source := Source(PROVIDER, Some(conversation), None);
      var messages := [Message(None, Assistant, reply, source, t)];
      if !persisted {
        var sent := Message(Some(key), User, text, source, t);
        assert [sent] + messages == [sent, messages[0]];
        messages := [sent] + messages;
      }
      queue := queue + [Queued(t, messages)];
      turns, replies := turns[t := turns[t].(phase := Synced)], replies[t := reply];
      uses := uses + {(t, key)};
    }

    /** The writer sends what was queued first; a write that fails is dropped. */
    method WriteNext(server: MessageStore, arrives: bool)
      requires Valid(Current()) && queue != [] && server.rows == rows
      modifies this`queue, this`rows, this`written, server
      ensures Current() == Step(old(Current()), Write(arrives)) && Valid(Current())
      ensures server.rows == rows && queue == old(queue)[1..]
      ensures !arrives ==> rows == old(rows) && written == old(written)
      ensures arrives ==> StoresQueued(old(rows), rows, old(queue)[0]) && written == old(written) + {old(queue)[0].turn}
    {
      StepKeepsValid(Current(), Write(arrives));
      StoresWhatIsQueued(Current());
      WriteForm(Current());
      SendNext(server, arrives);
    }

    method SendNext(server: MessageStore, arrives: bool)
      requires queue != [] && server.rows == rows && Unique(rows) && RecordAll(rows, queue[0].messages).Ok?
      modifies this`queue, this`rows, this`written, server
      ensures server.rows == rows
      ensures Current() ==
              if arrives then
                old(Current()).(queue := old(queue)[1..], rows := RecordAll(old(rows), old(queue)[0].messages).value.0,
                                written := old(written) + {old(queue)[0].turn})
              else old(Current()).(queue := old(queue)[1..])
    {
      var next := queue[0];
      queue := queue[1..];
      if arrives {
        var answer, trail, refused, before := server.RecordMessages(next.messages);
        rows, written := server.rows, written + {next.turn};
      }
    }
  }
}

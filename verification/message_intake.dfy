/**
  Recording messages: a batch is written in one transaction, and a message that is already there,
  by its idempotency key or by its place in the source, is answered with the row that holds it.

  Rows are never deleted, so a row's position is its id.
 */
module MessageIntake {
  import opened Wrappers

  datatype Author = User | Assistant

  datatype Source = Source(provider: string, conversation: Option<string>, item: Option<string>)

  /** A message as sent and as stored; `metadata` is kept and never looked at. */
  datatype Message = Message(key: Option<string>, author: Author, content: string, source: Source, metadata: nat)

  datatype Error = UniqueConstraint

  // ----- Identity

  predicate HasKey(m: Message) {
    m.key.Some? && m.key.value != ""
  }

  predicate HasItem(m: Message) {
    m.source.item.Some? && m.source.item.value != ""
  }

  function FindKey(rows: seq<Message>, key: string): (r: Option<nat>)
    ensures r.Some? ==> r.value < |rows| && rows[r.value].key == Some(key)
    ensures r.None? ==> forall i | 0 <= i < |rows| :: rows[i].key != Some(key)
  {
    if rows == [] then None
    else if rows[|rows| - 1].key == Some(key) then Some(|rows| - 1)
    else FindKey(rows[..|rows| - 1], key)
  }

  function FindSource(rows: seq<Message>, source: Source): (r: Option<nat>)
    ensures r.Some? ==> r.value < |rows| && rows[r.value].source == source
    ensures r.None? ==> forall i | 0 <= i < |rows| :: rows[i].source != source
  {
    if rows == [] then None
    else if rows[|rows| - 1].source == source then Some(|rows| - 1)
    else FindSource(rows[..|rows| - 1], source)
  }

  /** The row that already holds a message: the key is asked first, then the place in the source. */
  function Duplicate(rows: seq<Message>, m: Message): (r: Option<nat>)
    ensures r.Some? ==> r.value < |rows|
  {
    var byKey := if HasKey(m) then FindKey(rows, m.key.value) else None;
    if byKey.Some? then byKey
    else if HasItem(m) then FindSource(rows, m.source)
    else None
  }

  /** The source index takes a missing conversation for an empty one; the lookup does not. */
  function Coalesced(conversation: Option<string>): string {
    if conversation.Some? then conversation.value else ""
  }

  predicate SamePlace(a: Source, b: Source) {
    && a.item.Some? && b.item == a.item && b.provider == a.provider
    && Coalesced(a.conversation) == Coalesced(b.conversation)
  }

  predicate Clash(a: Message, b: Message) {
    (a.key.Some? && b.key == a.key) || SamePlace(a.source, b.source)
  }

  /** The constraints the schema declares unique. */
  ghost predicate Unique(rows: seq<Message>) {
    forall i, j | 0 <= i < j < |rows| :: !Clash(rows[i], rows[j])
  }

  predicate Rejected(rows: seq<Message>, m: Message) {
    exists i | 0 <= i < |rows| :: Clash(rows[i], m)
  }

  // ----- Recording

  /** The rows and the id of the row that holds the message; a clash the lookups do not explain is an error. */
  function RecordOne(rows: seq<Message>, m: Message): Result<(seq<Message>, nat), Error> {
    match Duplicate(rows, m)
    case Some(id) => Ok((rows, id))
    case None => if Rejected(rows, m) then Err(UniqueConstraint) else Ok((rows + [m], |rows|))
  }

  function RecordAll(rows: seq<Message>, batch: seq<Message>): Result<(seq<Message>, seq<nat>), Error> {
    if batch == [] then Ok((rows, []))
    else
      match RecordAll(rows, batch[..|batch| - 1])
      case Err(e) => Err(e)
      case Ok(before) =>
        match RecordOne(before.0, batch[|batch| - 1])
        case Err(e) => Err(e)
        case Ok(one) => Ok((one.0, before.1 + [one.1]))
  }

  /** Why a row answers for a message: it is the message, or one of its identities. */
  ghost predicate Answers(row: Message, m: Message) {
    row == m || (HasKey(m) && row.key == m.key) || (HasItem(m) && row.source == m.source)
  }

  ghost predicate AllAnswered(rows: seq<Message>, batch: seq<Message>, ids: seq<nat>) {
    |ids| == |batch| && forall k: nat | k < |batch| :: ids[k] < |rows| && Answers(rows[ids[k]], batch[k])
  }

  /** A recorded batch only adds rows, keeps them unique, and answers every message with a row. */
  lemma {:induction false} RecordingKeepsUnique(rows: seq<Message>, batch: seq<Message>)
    requires Unique(rows) && RecordAll(rows, batch).Ok?
    ensures var (rows', ids) := RecordAll(rows, batch).value;
            Unique(rows') && rows <= rows' && |rows'| <= |rows| + |batch| && AllAnswered(rows', batch, ids)
  {
    if batch != [] {
      var last := |batch| - 1;
      RecordingKeepsUnique(rows, batch[..last]);
      var before := RecordAll(rows, batch[..last]).value;
      var (rows', ids) := RecordAll(rows, batch).value;
      forall k: nat | k < |batch| ensures ids[k] < |rows'| && Answers(rows'[ids[k]], batch[k]) {
        if k < last {
          assert before.1[k] < |before.0| && Answers(before.0[before.1[k]], batch[..last][k]);
        }
      }
    }
  }

  // ----- Delivering a batch again

  ghost predicate Identified(batch: seq<Message>) {
    forall k | 0 <= k < |batch| :: HasKey(batch[k]) || HasItem(batch[k])
  }

  ghost predicate AllKnown(rows: seq<Message>, batch: seq<Message>) {
    forall k | 0 <= k < |batch| :: Duplicate(rows, batch[k]).Some?
  }

  lemma {:induction false} KnownAddsNothing(rows: seq<Message>, batch: seq<Message>)
    requires AllKnown(rows, batch)
    ensures RecordAll(rows, batch).Ok? && RecordAll(rows, batch).value.0 == rows
  {
    if batch != [] {
      var last := |batch| - 1;
      assert forall k | 0 <= k < last :: batch[..last][k] == batch[k];
      KnownAddsNothing(rows, batch[..last]);
    }
  }

  lemma AnsweredIsKnown(rows: seq<Message>, m: Message, id: nat)
    requires id < |rows| && Answers(rows[id], m)
    ensures Duplicate(rows, m).Some? <==> HasKey(m) || HasItem(m)
  {
  }

  /** An anonymous message is stored anew each time, so it makes a batch grow or fail. */
  lemma {:induction false} AnonymousAlwaysAdds(rows: seq<Message>, batch: seq<Message>)
    requires RecordAll(rows, batch).Ok? && !Identified(batch)
    ensures |RecordAll(rows, batch).value.0| > |rows|
  {
    var last := |batch| - 1;
    RowsOnlyGrow(rows, batch[..last]);
    if HasKey(batch[last]) || HasItem(batch[last]) {
      assert !Identified(batch[..last]) by {
        if Identified(batch[..last]) {
          assert forall k | 0 <= k < last :: batch[..last][k] == batch[k];
          assert Identified(batch);
        }
      }
      AnonymousAlwaysAdds(rows, batch[..last]);
    }
  }

  lemma {:induction false} RowsOnlyGrow(rows: seq<Message>, batch: seq<Message>)
    requires RecordAll(rows, batch).Ok?
    ensures |rows| <= |RecordAll(rows, batch).value.0|
  {
    if batch != [] { RowsOnlyGrow(rows, batch[..|batch| - 1]); }
  }

  /** A batch delivered again, however many rows later, adds nothing exactly when each message has an identity. */
  lemma RedeliveryAddsNothing(rows: seq<Message>, batch: seq<Message>, later: seq<Message>)
    requires Unique(rows) && RecordAll(rows, batch).Ok? && RecordAll(rows, batch).value.0 <= later
    ensures var again := RecordAll(later, batch);
            (again.Ok? && again.value.0 == later) <==> Identified(batch)
  {
    RecordingKeepsUnique(rows, batch);
    var (rows', ids) := RecordAll(rows, batch).value;
    if Identified(batch) {
      forall k: nat | k < |batch| ensures Duplicate(later, batch[k]).Some? {
        assert Answers(rows'[ids[k]], batch[k]) && later[ids[k]] == rows'[ids[k]];
        AnsweredIsKnown(later, batch[k], ids[k]);
      }
      KnownAddsNothing(later, batch);
    } else if RecordAll(later, batch).Ok? {
      AnonymousAlwaysAdds(later, batch);
    }
  }

  // ----- When recording fails

  /** One conversation is absent and the other is the empty string. */
  ghost predicate AbsentOrEmpty(a: Option<string>, b: Option<string>) {
    (a.None? && b == Some("")) || (a == Some("") && b.None?)
  }

  /**
    The identities the two sides of the store read differently: an empty key, or one provider's item that is empty,
    in the same conversation or one absent against one empty, or any item of such a pair of conversations.
   */
  ghost predicate Misread(row: Message, m: Message) {
    || (m.key == Some("") && row.key == m.key)
    || (&& m.source.item.Some? && row.source.item == m.source.item && row.source.provider == m.source.provider
        && (|| AbsentOrEmpty(row.source.conversation, m.source.conversation)
            || (m.source.item.value == "" && row.source.conversation == m.source.conversation)))
  }

  /**
    A message is refused exactly when no lookup finds it and some row has the same empty key or item, or
    the same place but for an absent conversation against an empty one.
   */
  lemma RefusedExactlyWhenMisread(rows: seq<Message>, m: Message)
    ensures RecordOne(rows, m).Err? <==>
            Duplicate(rows, m).None? && exists i | 0 <= i < |rows| :: Misread(rows[i], m)
  {
    if RecordOne(rows, m).Err? {
      var i :| 0 <= i < |rows| && Clash(rows[i], m);
      assert Misread(rows[i], m);
    }
    if i :| 0 <= i < |rows| && Misread(rows[i], m) {
      assert Clash(rows[i], m);
    }
  }

  /** Without empty strings for keys, items and conversations nothing is ever refused. */
  ghost predicate Proper(m: Message) {
    m.key != Some("") && m.source.item != Some("") && m.source.conversation != Some("")
  }

  lemma {:induction false} ProperIsRecorded(rows: seq<Message>, batch: seq<Message>)
    requires forall i | 0 <= i < |rows| :: Proper(rows[i])
    requires forall k | 0 <= k < |batch| :: Proper(batch[k])
    ensures RecordAll(rows, batch).Ok?
    ensures forall i | 0 <= i < |RecordAll(rows, batch).value.0| :: Proper(RecordAll(rows, batch).value.0[i])
  {
    if batch != [] {
      var last := |batch| - 1;
      ProperIsRecorded(rows, batch[..last]);
      RefusedExactlyWhenMisread(RecordAll(rows, batch[..last]).value.0, batch[last]);
    }
  }

  // ----- What recording does, message by message

  /** A row has the message's idempotency key. */
  ghost predicate HasItsKey(rows: seq<Message>, m: Message, id: nat) {
    id < |rows| && m.key.Some? && m.key.value != "" && rows[id].key == m.key
  }

  /** A row came from the message's place in the source. */
  ghost predicate HasItsPlace(rows: seq<Message>, m: Message, id: nat) {
    && id < |rows| && m.source.item.Some? && m.source.item.value != ""
    && rows[id].source.provider == m.source.provider && rows[id].source.conversation == m.source.conversation
    && rows[id].source.item == m.source.item
  }

  ghost predicate KeyKnown(rows: seq<Message>, m: Message) {
    exists id: nat :: HasItsKey(rows, m, id)
  }

  ghost predicate PlaceKnown(rows: seq<Message>, m: Message) {
    exists id: nat :: HasItsPlace(rows, m, id)
  }

  /** No row answers for the message, and yet one has its key, or its place but for how absence is written. */
  ghost predicate RefusedBy(rows: seq<Message>, m: Message) {
    && !KeyKnown(rows, m) && !PlaceKnown(rows, m)
    && exists i: nat :: i < |rows| && (|| (m.key.Some? && rows[i].key == m.key)
                                       || (&& m.source.item.Some? && rows[i].source.item == m.source.item
                                           && rows[i].source.provider == m.source.provider
                                           && (rows[i].source.conversation == m.source.conversation
                                               || AbsentOrEmpty(rows[i].source.conversation, m.source.conversation))))
  }

  /** The row of its key answers for it, or else that of its place, or else it is added as it is, unless refused. */
  ghost predicate RecordedAs(rows: seq<Message>, rows': seq<Message>, m: Message, id: nat) {
    if KeyKnown(rows, m) then rows' == rows && HasItsKey(rows, m, id)
    else if PlaceKnown(rows, m) then rows' == rows && HasItsPlace(rows, m, id)
    else !RefusedBy(rows, m) && rows' == rows + [m] && id == |rows|
  }

  /** The rows before and after each message of the batch. */
  ghost predicate Trail(states: seq<seq<Message>>, batch: seq<Message>, ids: seq<nat>) {
    && |states| == |batch| + 1 && |ids| == |batch|
    && forall k: nat | k < |batch| :: RecordedAs(states[k], states[k + 1], batch[k], ids[k])
  }

  lemma OneIsRecorded(rows: seq<Message>, m: Message)
    ensures match RecordOne(rows, m)
            case Ok(one) => RecordedAs(rows, one.0, m, one.1)
            case Err(_) => RefusedBy(rows, m)
  {
    assert KeyKnown(rows, m) <==> HasKey(m) && FindKey(rows, m.key.value).Some? by {
      if id: nat :| HasItsKey(rows, m, id) { assert rows[id].key == Some(m.key.value); }
      if HasKey(m) && FindKey(rows, m.key.value).Some? { assert HasItsKey(rows, m, FindKey(rows, m.key.value).value); }
    }
    assert PlaceKnown(rows, m) <==> HasItem(m) && FindSource(rows, m.source).Some? by {
      if id: nat :| HasItsPlace(rows, m, id) { assert rows[id].source == m.source; }
      if HasItem(m) && FindSource(rows, m.source).Some? {
        assert HasItsPlace(rows, m, FindSource(rows, m.source).value);
      }
    }
    if RecordOne(rows, m).Err? {
      var i :| 0 <= i < |rows| && Clash(rows[i], m);
    }
  }

  /** A batch is recorded message by message, or one is refused after those before it were recorded. */
  lemma {:induction false} BatchIsRecorded(rows: seq<Message>, batch: seq<Message>)
    returns (states: seq<seq<Message>>, refused: nat, ids: seq<nat>)
    ensures match RecordAll(rows, batch)
            case Ok(done) => Trail(states, batch, done.1) && states[0] == rows && states[|batch|] == done.0
            case Err(_) => refused < |batch| && Trail(states, batch[..refused], ids) && states[0] == rows
                           && RefusedBy(states[refused], batch[refused])
  {
    if batch == [] {
      states, refused, ids := [rows], 0, [];
    } else {
      var last := |batch| - 1;
      states, refused, ids := BatchIsRecorded(rows, batch[..last]);
      match RecordAll(rows, batch[..last]) {
        case Err(_) => assert batch[..last][..refused] == batch[..refused];
        case Ok(before) =>
          OneIsRecorded(before.0, batch[last]);
          if RecordOne(before.0, batch[last]).Err? {
            refused, ids := last, before.1;
          } else {
            var one := RecordOne(before.0, batch[last]).value;
            TrailGrows(states, batch, before.1, one.0, one.1);
            states := states + [one.0];
          }
      }
    }
  }

  lemma TrailGrows(states: seq<seq<Message>>, batch: seq<Message>, ids: seq<nat>, rows: seq<Message>, id: nat)
    requires batch != [] && Trail(states, batch[..|batch| - 1], ids)
    requires RecordedAs(states[|batch| - 1], rows, batch[|batch| - 1], id)
    ensures Trail(states + [rows], batch, ids + [id])
  {
    var last := |batch| - 1;
    forall k: nat | k < |batch|
      ensures RecordedAs((states + [rows])[k], (states + [rows])[k + 1], batch[k], (ids + [id])[k]) {
      if k < last { assert RecordedAs(states[k], states[k + 1], batch[..last][k], ids[k]); }
    }
  }

  // ----- The store

  class MessageStore {
    var rows: seq<Message>

    constructor ()
      ensures rows == []
    {
      rows := [];
    }

    /** All messages of the batch are written, or, when one is refused, none. */
    method RecordMessages(batch: seq<Message>)
      returns (r: Result<seq<nat>, Error>, ghost trail: seq<seq<Message>>, ghost refused: nat, ghost before: seq<nat>)
      requires Unique(rows)
      modifies this
      ensures Unique(rows)
      ensures match RecordAll(old(rows), batch)
              case Ok(done) => rows == done.0 && r == Ok(done.1) && AllAnswered(rows, batch, done.1)
              case Err(e) => rows == old(rows) && r == Err(e)
      ensures trail != [] && trail[0] == old(rows)
      ensures r.Ok? ==> Trail(trail, batch, r.value) && rows == trail[|batch|]
      ensures r.Err? ==>
                && refused < |batch| && Trail(trail, batch[..refused], before)
                && RefusedBy(trail[refused], batch[refused]) && rows == old(rows)
    {
      trail, refused, before := BatchIsRecorded(rows, batch);
      r := RecordBatch(batch);
    }

    method RecordBatch(batch: seq<Message>) returns (r: Result<seq<nat>, Error>)
      requires Unique(rows)
      modifies this
      ensures Unique(rows)
      ensures match RecordAll(old(rows), batch)
              case Ok(done) => rows == done.0 && r == Ok(done.1) && AllAnswered(rows, batch, done.1)
              case Err(e) => rows == old(rows) && r == Err(e)
    {
      var written, ids := rows, [];
      for k := 0 to |batch|
        invariant rows == old(rows)
        invariant RecordAll(rows, batch[..k]) == Ok((written, ids))
      {
        assert batch[..k + 1][..k] == batch[..k];
        var duplicate := Duplicate(written, batch[k]);
        if duplicate.Some? {
          ids := ids + [duplicate.value];
          continue;
        }
        if Rejected(written, batch[k]) {
          RefusalIsFinal(rows, batch, k + 1);
          return Err(UniqueConstraint);
        }
        ids := ids + [|written|];
        written := written + [batch[k]];
      }
      assert batch[..|batch|] == batch;
      RecordingKeepsUnique(rows, batch);
      rows := written;
      return Ok(ids);
    }
  }

  lemma {:induction false} RefusalIsFinal(rows: seq<Message>, batch: seq<Message>, n: nat)
    requires n <= |batch| && RecordAll(rows, batch[..n]) == Err(UniqueConstraint)
    ensures RecordAll(rows, batch) == Err(UniqueConstraint)
    decreases |batch|
  {
    if n < |batch| {
      assert batch[..|batch| - 1][..n] == batch[..n];
      RefusalIsFinal(rows, batch[..|batch| - 1], n);
    } else {
      assert batch[..n] == batch;
    }
  }
}

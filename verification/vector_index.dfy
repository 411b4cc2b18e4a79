/**
  Stored embeddings and the search index beside them.

  The main table is the truth; the sidecar is an index over it that is kept in step best-effort. Owner ids
  are unique across kinds. A content hash is taken to be injective: it is a constructor of its text.
 */
module VectorIndex {
  import opened Wrappers

  datatype Kind = MemoryText | LearningGoalText | HypothesisText | CoverageText

  datatype Owner = Owner(space: nat, kind: Kind, text: string, status: nat)

  datatype Digest = Digest(text: string)

  type Vector = seq<real>

  datatype Embedding = Embedding(space: nat, kind: Kind, model: string, dim: nat, vector: Vector, hash: Digest)

  datatype Entry = Entry(space: nat, kind: Kind, vector: Vector, hash: Digest)

  datatype Meta = Meta(model: string, dim: nat, layout: nat)

  datatype Sidecar = Sidecar(meta: Meta, entries: map<nat, Entry>)

  datatype Item = Item(space: nat, kind: Kind, id: nat, text: string, vector: Vector)

  /** What an embedding provider once answered. */
  datatype Answer = Answer(model: string, dim: nat, text: string, vector: Vector)

  datatype State =
    State(owners: map<nat, Owner>, main: map<nat, Embedding>, sidecar: Option<Sidecar>, answers: set<Answer>)

  const SIDECAR_LAYOUT_VERSION := 2

  // ----- Writes

  function EmbeddingOf(model: string, dim: nat, item: Item): Embedding {
    Embedding(item.space, item.kind, model, dim, item.vector, Digest(item.text))
  }

  function WriteOne(main: map<nat, Embedding>, model: string, dim: nat, item: Item): map<nat, Embedding> {
    main[item.id := EmbeddingOf(model, dim, item)]
  }

  function WriteAll(main: map<nat, Embedding>, model: string, dim: nat, items: seq<Item>): map<nat, Embedding> {
    if items == [] then main
    else WriteOne(WriteAll(main, model, dim, items[..|items| - 1]), model, dim, items[|items| - 1])
  }

  /** An update leaves the space of an entry alone. */
  function IndexOne(entries: map<nat, Entry>, item: Item): map<nat, Entry> {
    if item.id in entries then
      entries[item.id := entries[item.id].(vector := item.vector, kind := item.kind, hash := Digest(item.text))]
    else entries[item.id := Entry(item.space, item.kind, item.vector, Digest(item.text))]
  }

  function IndexAll(entries: map<nat, Entry>, items: seq<Item>): map<nat, Entry> {
    if items == [] then entries else IndexOne(IndexAll(entries, items[..|items| - 1]), items[|items| - 1])
  }

  predicate BuiltFor(s: State, model: string, dim: nat) {
    s.sidecar.Some? && s.sidecar.value.meta == Meta(model, dim, SIDECAR_LAYOUT_VERSION)
  }

  function Upsert(s: State, model: string, dim: nat, items: seq<Item>, available: bool): State {
    s.(main := WriteAll(s.main, model, dim, items),
       sidecar := if available && BuiltFor(s, model, dim) then
                    Some(s.sidecar.value.(entries := IndexAll(s.sidecar.value.entries, items)))
                  else s.sidecar)
  }

  /** The index that the main table calls for. */
  function Indexed(main: map<nat, Embedding>, model: string, dim: nat): map<nat, Entry> {
    map id | id in main && main[id].model == model && main[id].dim == dim ::
      Entry(main[id].space, main[id].kind, main[id].vector, main[id].hash)
  }

  function EnsureIndex(s: State, model: string, dim: nat, available: bool): State {
    if !available || BuiltFor(s, model, dim) then s
    else s.(sidecar := Some(Sidecar(Meta(model, dim, SIDECAR_LAYOUT_VERSION), Indexed(s.main, model, dim))))
  }

  /** Rows whose owner is gone are swept from the main table, not from the sidecar. */
  function Swept(main: map<nat, Embedding>, owners: map<nat, Owner>): map<nat, Embedding> {
    map id | id in main && id in owners :: main[id]
  }

  function Cleanup(s: State): State {
    s.(main := Swept(s.main, s.owners))
  }

  // ----- The sidecar mirrors the main table

  ghost predicate Mirror(s: State, model: string, dim: nat) {
    BuiltFor(s, model, dim) && s.sidecar.value.entries == Indexed(s.main, model, dim)
  }

  /** Rows and items lie in their owner's space, as long as the owner is there. */
  ghost predicate Placed(s: State) {
    forall id | id in s.main && id in s.owners ::
      s.main[id].space == s.owners[id].space && s.main[id].kind == s.owners[id].kind
  }

  ghost predicate OwnedItem(s: State, item: Item) {
    item.id in s.owners && item.space == s.owners[item.id].space && item.kind == s.owners[item.id].kind
  }

  lemma {:induction false} UpsertKeepsPlaced(s: State, model: string, dim: nat, items: seq<Item>)
    requires Placed(s) && forall item | item in items :: OwnedItem(s, item)
    ensures Placed(s.(main := WriteAll(s.main, model, dim, items)))
  {
    if items != [] {
      assert OwnedItem(s, items[|items| - 1]);
      UpsertKeepsPlaced(s, model, dim, items[..|items| - 1]);
    }
  }

  lemma {:induction false} IndexFollowsMain(s: State, model: string, dim: nat, items: seq<Item>)
    requires Placed(s) && forall item | item in items :: OwnedItem(s, item)
    ensures IndexAll(Indexed(s.main, model, dim), items) == Indexed(WriteAll(s.main, model, dim, items), model, dim)
  {
    if items != [] {
      var init, last := items[..|items| - 1], items[|items| - 1];
      assert OwnedItem(s, last);
      IndexFollowsMain(s, model, dim, init);
      UpsertKeepsPlaced(s, model, dim, init);
    }
  }

  /** While vectors are available, upserts keep the sidecar equal to the main table. */
  lemma UpsertMirrors(s: State, model: string, dim: nat, items: seq<Item>)
    requires Placed(s) && Mirror(s, model, dim) && forall item | item in items :: OwnedItem(s, item)
    ensures Placed(Upsert(s, model, dim, items, true)) && Mirror(Upsert(s, model, dim, items, true), model, dim)
  {
    IndexFollowsMain(s, model, dim, items);
    UpsertKeepsPlaced(s, model, dim, items);
  }

  /**
    A sidecar of another model, dimension or layout is rebuilt into a mirror; one that claims to be current is
    kept as it is.
   */
  lemma EnsureMirrors(s: State, model: string, dim: nat)
    ensures Mirror(EnsureIndex(s, model, dim, true), model, dim) <==>
              (BuiltFor(s, model, dim) ==> Mirror(s, model, dim))
  {
  }

  /**
    A vector written while the sidecar was out of reach stays missing there: nothing rebuilds an index that
    looks current.
   */
  lemma SkippedWriteStaysMissing(s: State, model: string, dim: nat, item: Item)
    requires Mirror(s, model, dim)
    ensures var s' := EnsureIndex(Upsert(s, model, dim, [item], false), model, dim, true);
            Mirror(s', model, dim) <==>
            item.id in s.main && s.main[item.id] == EmbeddingOf(model, dim, item)
  {
    assert [item][..0] == [];
    assert WriteAll(s.main, model, dim, [item]) == WriteOne(s.main, model, dim, item);
    var s' := EnsureIndex(Upsert(s, model, dim, [item], false), model, dim, true);
    assert item.id in Indexed(s'.main, model, dim);
    if item.id in s.main && s.main[item.id] == EmbeddingOf(model, dim, item) {
      assert s'.main == s.main;
    }
  }

  /** Sweeping rows of deleted owners leaves their entries in the sidecar. */
  lemma CleanupMirrorsUnlessOrphaned(s: State, model: string, dim: nat)
    requires Mirror(s, model, dim)
    ensures Mirror(Cleanup(s), model, dim) <==> forall id | id in Indexed(s.main, model, dim) :: id in s.owners
  {
    var s' := Cleanup(s);
    if forall id | id in Indexed(s.main, model, dim) :: id in s.owners {
      assert Indexed(s'.main, model, dim) == Indexed(s.main, model, dim);
    }
    if id :| id in Indexed(s.main, model, dim) && id !in s.owners {
      assert id !in Indexed(s'.main, model, dim);
    }
  }

  // ----- Pending owners

  /** The owner needs embedding: no row, a row for other text, or a row of another model or dimension. */
  predicate IsPending(owners: map<nat, Owner>, main: map<nat, Embedding>, model: string, dim: nat, id: nat)
    requires id in owners
  {
    id !in main || main[id].hash != Digest(owners[id].text) || main[id].model != model || main[id].dim != dim
  }

  function PendingIds(s: State, model: string, dim: nat): set<nat> {
    set id | id in s.owners && IsPending(s.owners, s.main, model, dim, id)
  }

  // ----- Interleavings of rewrites with a worker

  datatype Event =
    | AddOwner(id: nat, owner: Owner)
    | Rewrite(id: nat, text: string)
    | SetStatus(id: nat, status: nat)
    | DeleteOwner(id: nat)
    | Embed(answer: Answer)
    | Store(model: string, dim: nat, items: seq<Item>, available: bool)
    | Ensure(model: string, dim: nat, available: bool)
    | Sweep

  /** A worker stores only what the provider answered, however long ago it read the text. */
  ghost predicate Answered(s: State, model: string, dim: nat, items: seq<Item>) {
    forall k | 0 <= k < |items| :: Answer(model, dim, items[k].text, items[k].vector) in s.answers
  }

  ghost function Step(s: State, e: Event): State {
    match e
    case AddOwner(id, owner) => if id in s.owners then s else s.(owners := s.owners[id := owner])
    case Rewrite(id, text) => if id in s.owners then s.(owners := s.owners[id := s.owners[id].(text := text)]) else s
    case SetStatus(id, status) =>
      if id in s.owners then s.(owners := s.owners[id := s.owners[id].(status := status)]) else s
    case DeleteOwner(id) => s.(owners := s.owners - {id})
    case Embed(answer) => s.(answers := s.answers + {answer})
    case Store(model, dim, items, available) =>
      if Answered(s, model, dim, items) then Upsert(s, model, dim, items, available) else s
    case Ensure(model, dim, available) => EnsureIndex(s, model, dim, available)
    case Sweep => Cleanup(s)
  }

  ghost function Run(s: State, events: seq<Event>): State
    decreases |events|
  {
    if events == [] then s else Run(Step(s, events[0]), events[1..])
  }

  /** Every stored vector was computed from the text its hash names. */
  ghost predicate Computed(s: State) {
    forall id | id in s.main ::
      Answer(s.main[id].model, s.main[id].dim, s.main[id].hash.text, s.main[id].vector) in s.answers
  }

  lemma {:induction false} WritesAreComputed(s: State, model: string, dim: nat, items: seq<Item>)
    requires Computed(s) && Answered(s, model, dim, items)
    ensures Computed(s.(main := WriteAll(s.main, model, dim, items)))
  {
    if items != [] { WritesAreComputed(s, model, dim, items[..|items| - 1]); }
  }

  lemma {:induction false} RunIsComputed(s: State, events: seq<Event>)
    requires Computed(s)
    ensures Computed(Run(s, events))
    decreases |events|
  {
    if events != [] {
      if events[0].Store? && Answered(s, events[0].model, events[0].dim, events[0].items) {
        WritesAreComputed(s, events[0].model, events[0].dim, events[0].items);
      }
      RunIsComputed(Step(s, events[0]), events[1..]);
    }
  }

  const EMPTY := State(map[], map[], None, {})

  /** Whatever was rewritten meanwhile, an owner that is not pending has a vector of its present text. */
  lemma NotPendingIsCurrent(events: seq<Event>, model: string, dim: nat, id: nat)
    requires id in Run(EMPTY, events).owners && id !in PendingIds(Run(EMPTY, events), model, dim)
    ensures var s := Run(EMPTY, events);
            id in s.main && Answer(model, dim, s.owners[id].text, s.main[id].vector) in s.answers
  {
    RunIsComputed(EMPTY, events);
  }

  // ----- Steady runs keep the mirror

  ghost predicate OwnedItems(s: State, items: seq<Item>) {
    forall item | item in items :: OwnedItem(s, item)
  }

  /** Vectors are available, they are all of one model and dimension, and no owner that has one is deleted. */
  ghost predicate Steady(s: State, e: Event, model: string, dim: nat) {
    match e
    case Store(m, d, items, available) => m == model && d == dim && available && OwnedItems(s, items)
    case DeleteOwner(id) => id !in s.main
    case _ => true
  }

  ghost predicate SteadyRun(s: State, events: seq<Event>, model: string, dim: nat)
    decreases |events|
  {
    events == [] || (Steady(s, events[0], model, dim) && SteadyRun(Step(s, events[0]), events[1..], model, dim))
  }

  /** Every row has its owner and is of the one model and dimension. */
  ghost predicate Owned(s: State, model: string, dim: nat) {
    forall id | id in s.main :: id in s.owners && s.main[id].model == model && s.main[id].dim == dim
  }

  /** An index that claims to be current is current. */
  ghost predicate Settled(s: State, model: string, dim: nat) {
    Placed(s) && Owned(s, model, dim) && (BuiltFor(s, model, dim) ==> Mirror(s, model, dim))
  }

  lemma {:induction false} WritesAreOwned(s: State, model: string, dim: nat, items: seq<Item>)
    requires Owned(s, model, dim) && OwnedItems(s, items)
    ensures Owned(s.(main := WriteAll(s.main, model, dim, items)), model, dim)
  {
    if items != [] {
      assert OwnedItem(s, items[|items| - 1]);
      WritesAreOwned(s, model, dim, items[..|items| - 1]);
    }
  }

  lemma StoreKeepsSettled(s: State, model: string, dim: nat, items: seq<Item>)
    requires Settled(s, model, dim) && OwnedItems(s, items)
    ensures Settled(Upsert(s, model, dim, items, true), model, dim)
  {
    WritesAreOwned(s, model, dim, items);
    UpsertKeepsPlaced(s, model, dim, items);
    if BuiltFor(s, model, dim) { UpsertMirrors(s, model, dim, items); }
  }

  lemma SweepKeepsSettled(s: State, model: string, dim: nat)
    requires Settled(s, model, dim)
    ensures Cleanup(s) == s
  {
    assert Swept(s.main, s.owners) == s.main;
  }

  lemma SteadyStepKeepsSettled(s: State, e: Event, model: string, dim: nat)
    requires Settled(s, model, dim) && Steady(s, e, model, dim)
    ensures Settled(Step(s, e), model, dim)
  {
    match e
    case Store(_, _, items, _) => StoreKeepsSettled(s, model, dim, items);
    case Sweep => SweepKeepsSettled(s, model, dim);
    case _ =>
  }

  /**
    However owners are added and rewritten and the index is rebuilt meanwhile, a steady run keeps the index
    that claims to be current equal to the main table, and maintenance makes it so.
   */
  lemma {:induction false} SteadyRunsMirror(s: State, events: seq<Event>, model: string, dim: nat)
    requires Settled(s, model, dim) && SteadyRun(s, events, model, dim)
    ensures Settled(Run(s, events), model, dim)
    ensures Mirror(EnsureIndex(Run(s, events), model, dim, true), model, dim)
    decreases |events|
  {
    if events == [] {
      EnsureMirrors(s, model, dim);
    } else {
      SteadyStepKeepsSettled(s, events[0], model, dim);
      SteadyRunsMirror(Step(s, events[0]), events[1..], model, dim);
    }
  }

  lemma EmptyIsSettled(model: string, dim: nat)
    ensures Settled(EMPTY, model, dim) && Computed(EMPTY)
  {
  }

  // ----- Draining

  function ItemFor(p: Pending, vector: Vector): Item {
    Item(p.space, p.kind, p.id, p.text, vector)
  }

  function Embedded(batch: seq<Pending>, embed: string -> Vector): (items: seq<Item>)
    ensures |items| == |batch| && forall k | 0 <= k < |batch| :: items[k] == ItemFor(batch[k], embed(batch[k].text))
  {
    seq(|batch|, k requires 0 <= k < |batch| => ItemFor(batch[k], embed(batch[k].text)))
  }

  function ItemIds(items: seq<Item>): set<nat> {
    set item | item in items :: item.id
  }

  /** Storing vectors of the present texts takes exactly their owners off the pending list. */
  lemma {:induction false} StoredAreNotPending(owners: map<nat, Owner>, main: map<nat, Embedding>,
        model: string, dim: nat, items: seq<Item>, id: nat)
    requires id in owners && forall item | item in items :: item.id in owners && item.text == owners[item.id].text
    ensures IsPending(owners, WriteAll(main, model, dim, items), model, dim, id) <==>
            IsPending(owners, main, model, dim, id) && id !in ItemIds(items)
  {
    if items != [] {
      var init, last := items[..|items| - 1], items[|items| - 1];
      assert items == init + [last];
      assert last in items && ItemIds(items) == ItemIds(init) + {last.id};
      StoredAreNotPending(owners, main, model, dim, init, id);
    }
  }

  // ----- What the tables hold afterwards, row by row

  /** The index has exactly the rows of this model and dimension, each as the main table has it. */
  ghost predicate Mirrors(main: map<nat, Embedding>, entries: map<nat, Entry>, model: string, dim: nat) {
    && (forall id :: id in entries <==> id in main && main[id].model == model && main[id].dim == dim)
    && (forall id | id in entries ::
          entries[id] == Entry(main[id].space, main[id].kind, main[id].vector, main[id].hash))
  }

  /** No later item is about the same owner, so this is the one that stays. */
  ghost predicate IsLast(items: seq<Item>, k: nat) {
    k < |items| && forall j | k < j < |items| :: items[j].id != items[k].id
  }

  ghost predicate Mentions(items: seq<Item>, id: nat) {
    exists k :: 0 <= k < |items| && items[k].id == id
  }

  /** Each owner's last item is its row, of this model and dimension; no other row has changed. */
  ghost predicate Wrote(main: map<nat, Embedding>, main': map<nat, Embedding>, model: string, dim: nat,
                        items: seq<Item>)
  {
    && (forall k: nat | IsLast(items, k) ::
          && items[k].id in main'
          && main'[items[k].id] ==
               Embedding(items[k].space, items[k].kind, model, dim, items[k].vector, Digest(items[k].text)))
    && (forall id | !Mentions(items, id) :: (id in main' <==> id in main) && (id in main ==> main'[id] == main[id]))
  }

  ghost predicate IndexedAs(entries: map<nat, Entry>, item: Item) {
    && item.id in entries && entries[item.id].kind == item.kind && entries[item.id].vector == item.vector
    && entries[item.id].hash == Digest(item.text)
  }

  /** An entry that was there keeps its space; a new one is in the space of one of its items. */
  ghost predicate InSpace(entries: map<nat, Entry>, space: nat, items: seq<Item>, id: nat) {
    if id in entries then space == entries[id].space
    else exists j :: 0 <= j < |items| && items[j].id == id && items[j].space == space
  }

  /** The same for the index, where an entry that is already there keeps its space. */
  ghost predicate WroteIndex(entries: map<nat, Entry>, entries': map<nat, Entry>, items: seq<Item>) {
    && (forall k: nat | IsLast(items, k) ::
          IndexedAs(entries', items[k]) && InSpace(entries, entries'[items[k].id].space, items, items[k].id))
    && (forall id | !Mentions(items, id) ::
          (id in entries' <==> id in entries) && (id in entries ==> entries'[id] == entries[id]))
  }

  lemma FewerMention(items: seq<Item>, id: nat)
    requires items != []
    ensures Mentions(items, id) <==> items[|items| - 1].id == id || Mentions(items[..|items| - 1], id)
  {
    if Mentions(items[..|items| - 1], id) {
      var j :| 0 <= j < |items| - 1 && items[..|items| - 1][j].id == id;
      assert items[j].id == id;
    }
  }

  lemma {:induction false} LastIsWritten(main: map<nat, Embedding>, model: string, dim: nat, items: seq<Item>, k: nat)
    requires IsLast(items, k)
    ensures var main', item := WriteAll(main, model, dim, items), items[k];
            && item.id in main'
            && main'[item.id] == Embedding(item.space, item.kind, model, dim, item.vector, Digest(item.text))
  {
    if k < |items| - 1 { LastIsWritten(main, model, dim, items[..|items| - 1], k); }
  }

  lemma {:induction false} OthersAreKept(main: map<nat, Embedding>, model: string, dim: nat, items: seq<Item>, id: nat)
    requires !Mentions(items, id)
    ensures var main' := WriteAll(main, model, dim, items);
            (id in main' <==> id in main) && (id in main ==> main'[id] == main[id])
  {
    if items != [] {
      FewerMention(items, id);
      OthersAreKept(main, model, dim, items[..|items| - 1], id);
    }
  }

  lemma WritesLast(main: map<nat, Embedding>, model: string, dim: nat, items: seq<Item>)
    ensures Wrote(main, WriteAll(main, model, dim, items), model, dim, items)
  {
    forall k: nat | IsLast(items, k) ensures items[k].id in WriteAll(main, model, dim, items)
      ensures WriteAll(main, model, dim, items)[items[k].id] ==
              Embedding(items[k].space, items[k].kind, model, dim, items[k].vector, Digest(items[k].text)) {
      LastIsWritten(main, model, dim, items, k);
    }
    forall id | !Mentions(items, id)
      ensures var main' := WriteAll(main, model, dim, items);
              (id in main' <==> id in main) && (id in main ==> main'[id] == main[id]) {
      OthersAreKept(main, model, dim, items, id);
    }
  }

  lemma {:induction false} LastIsIndexed(entries: map<nat, Entry>, items: seq<Item>, k: nat)
    requires IsLast(items, k)
    ensures IndexedAs(IndexAll(entries, items), items[k])
  {
    if k < |items| - 1 { LastIsIndexed(entries, items[..|items| - 1], k); }
  }

  lemma {:induction false} IndexedSpace(entries: map<nat, Entry>, items: seq<Item>, id: nat)
    requires Mentions(items, id)
    ensures id in IndexAll(entries, items)
    ensures InSpace(entries, IndexAll(entries, items)[id].space, items, id)
  {
    var init, last := items[..|items| - 1], items[|items| - 1];
    FewerMention(items, id);
    if Mentions(init, id) {
      IndexedSpace(entries, init, id);
      SpaceOfMore(entries, IndexAll(entries, init)[id].space, items, id);
    } else {
      OthersAreIndexed(entries, init, id);
    }
  }

  lemma SpaceOfMore(entries: map<nat, Entry>, space: nat, items: seq<Item>, id: nat)
    requires items != [] && InSpace(entries, space, items[..|items| - 1], id)
    ensures InSpace(entries, space, items, id)
  {
    if id !in entries {
      var j :| 0 <= j < |items| - 1 && items[..|items| - 1][j].id == id && items[..|items| - 1][j].space == space;
      assert items[j].id == id && items[j].space == space;
    }
  }

  lemma {:induction false} OthersAreIndexed(entries: map<nat, Entry>, items: seq<Item>, id: nat)
    requires !Mentions(items, id)
    ensures var entries' := IndexAll(entries, items);
            (id in entries' <==> id in entries) && (id in entries ==> entries'[id] == entries[id])
  {
    if items != [] {
      FewerMention(items, id);
      OthersAreIndexed(entries, items[..|items| - 1], id);
    }
  }

  lemma IndexesLast(entries: map<nat, Entry>, items: seq<Item>)
    ensures WroteIndex(entries, IndexAll(entries, items), items)
  {
    forall k: nat | IsLast(items, k)
      ensures IndexedAs(IndexAll(entries, items), items[k])
      ensures InSpace(entries, IndexAll(entries, items)[items[k].id].space, items, items[k].id) {
      LastIsIndexed(entries, items, k);
      IndexedSpace(entries, items, items[k].id);
    }
    forall id | !Mentions(items, id)
      ensures var entries' := IndexAll(entries, items);
              (id in entries' <==> id in entries) && (id in entries ==> entries'[id] == entries[id]) {
      OthersAreIndexed(entries, items, id);
    }
  }

  // ----- The store

  datatype Pending = Pending(space: nat, kind: Kind, id: nat, text: string)

  const EMBEDDING_BATCH_SIZE := 48

  function Ids(pending: seq<Pending>): set<nat> {
    set p | p in pending :: p.id
  }

  class VectorStore {
    var owners: map<nat, Owner>
    var main: map<nat, Embedding>
    var sidecar: Option<Sidecar>
    ghost var answers: set<Answer>

    ghost function Current(): State
      reads this
    {
      State(owners, main, sidecar, answers)
    }

    constructor ()
      ensures Current() == EMPTY && Placed(Current())
    {
      owners, main, sidecar, answers := map[], map[], None, {};
    }

    method EnsureVectorIndex(model: string, dim: nat, available: bool)
      modifies this`sidecar
      ensures Current() == EnsureIndex(old(Current()), model, dim, available)
      ensures available && old(Mirror(Current(), model, dim) || !BuiltFor(Current(), model, dim)) ==>
                Mirror(Current(), model, dim)
      ensures if available && old(sidecar.None? || sidecar.value.meta != Meta(model, dim, 2)) then
                sidecar.Some? && sidecar.value.meta == Meta(model, dim, 2)
                && Mirrors(main, sidecar.value.entries, model, dim)
              else sidecar == old(sidecar)
    {
      if !available {
        return;
      }
      if sidecar.Some? && sidecar.value.meta == Meta(model, dim, SIDECAR_LAYOUT_VERSION) {
        return;
      }
      sidecar := Some(Sidecar(Meta(model, dim, SIDECAR_LAYOUT_VERSION), Indexed(main, model, dim)));
    }

    method WriteMain(model: string, dim: nat, items: seq<Item>)
      modifies this`main
      ensures main == WriteAll(old(main), model, dim, items) && Wrote(old(main), main, model, dim, items)
    {
      for k := 0 to |items|
        invariant main == WriteAll(old(main), model, dim, items[..k])
      {
        assert items[..k + 1][..k] == items[..k];
        main := main[items[k].id := EmbeddingOf(model, dim, items[k])];
      }
      assert items[..|items|] == items;
      WritesLast(old(main), model, dim, items);
    }

    method WriteIndex(items: seq<Item>)
      requires sidecar.Some?
      modifies this`sidecar
      ensures sidecar == Some(old(sidecar).value.(entries := IndexAll(old(sidecar).value.entries, items)))
      ensures WroteIndex(old(sidecar).value.entries, sidecar.value.entries, items)
    {
      var entries := sidecar.value.entries;
      for k := 0 to |items|
        invariant sidecar == old(sidecar) && entries == IndexAll(sidecar.value.entries, items[..k])
      {
        assert items[..k + 1][..k] == items[..k];
        entries := IndexOne(entries, items[k]);
      }
      assert items[..|items|] == items;
      IndexesLast(sidecar.value.entries, items);
      sidecar := Some(sidecar.value.(entries := entries));
    }

    /** The main table first; the index when it is in reach and current. */
    method UpsertEmbeddings(model: string, dim: nat, items: seq<Item>, available: bool)
      requires Placed(Current()) && forall item | item in items :: OwnedItem(Current(), item)
      modifies this`main, this`sidecar
      ensures Current() == Upsert(old(Current()), model, dim, items, available) && Placed(Current())
      ensures available && old(Mirror(Current(), model, dim)) ==> Mirror(Current(), model, dim)
      ensures available && old(Settled(Current(), model, dim)) ==> Settled(Current(), model, dim)
      ensures Wrote(old(main), main, model, dim, items)
      ensures if available && old(sidecar.Some? && sidecar.value.meta == Meta(model, dim, 2)) then
                sidecar.Some? && sidecar.value.meta == Meta(model, dim, 2)
                && WroteIndex(old(sidecar).value.entries, sidecar.value.entries, items)
              else sidecar == old(sidecar)
    {
      ghost var before := Current();
      UpsertKeepsPlaced(before, model, dim, items);
      if Mirror(before, model, dim) { UpsertMirrors(before, model, dim, items); }
      if Settled(before, model, dim) { StoreKeepsSettled(before, model, dim, items); }
      WriteMain(model, dim, items);
      if available && sidecar.Some? && sidecar.value.meta == Meta(model, dim, SIDECAR_LAYOUT_VERSION) {
        WriteIndex(items);
      }
    }

    /** Every owner whose stored vector is missing or stale, after sweeping orphaned rows. */
    method PendingEmbeddings(model: string, dim: nat) returns (pending: seq<Pending>)
      modifies this`main
      ensures Current() == Cleanup(old(Current()))
      ensures Ids(pending) == PendingIds(Current(), model, dim) && Listed(owners, pending)
      ensures WithoutOrphans(old(main), main, owners) && AreNeeded(owners, main, model, dim, pending)
    {
      main := Swept(main, owners);
      pending := [];
      var todo := owners.Keys;
      while todo != {}
        invariant main == Swept(old(main), owners)
        invariant todo <= owners.Keys && Ids(pending) == PendingIds(Current(), model, dim) - todo
                  && Listed(owners, pending)
        decreases |todo|
      {
        var id :| id in todo;
        if IsPending(owners, main, model, dim, id) {
          AddPending(owners, pending, id);
          pending := pending + [Pending(owners[id].space, owners[id].kind, id, owners[id].text)];
        }
        todo := todo - {id};
      }
      PendingAre(Current(), model, dim, pending);
    }

    /** Stores the answers for some pending owners whose texts have not changed since they were read. */
    method StoreBatch(model: string, dim: nat, batch: seq<Pending>, embed: string -> Vector, available: bool)
      requires Placed(Current()) && Computed(Current()) && Listed(owners, batch)
      modifies this`main, this`sidecar, this`answers
      ensures Placed(Current()) && Computed(Current())
      ensures PendingIds(Current(), model, dim) == old(PendingIds(Current(), model, dim)) - Ids(batch)
      ensures available && old(Settled(Current(), model, dim)) ==> Settled(Current(), model, dim)
    {
      BatchItems(owners, batch, embed);
      var items := Embedded(batch, embed);
      answers := answers + set p | p in batch :: Answer(model, dim, p.text, embed(p.text));
      WritesAreComputed(Current(), model, dim, items);
      ghost var before := main;
      UpsertEmbeddings(model, dim, items, available);
      forall id | id in owners
        ensures IsPending(owners, main, model, dim, id) <==>
                  IsPending(owners, before, model, dim, id) && id !in Ids(batch) {
        StoredAreNotPending(owners, before, model, dim, items, id);
      }
    }

    /** One batch of the worker; the provider answers and nothing is rewritten meanwhile. */
    method ProcessEmbeddingBatch(model: string, dim: nat, embed: string -> Vector, available: bool)
      returns (didWork: bool)
      requires Placed(Current()) && Computed(Current())
      modifies this`main, this`sidecar, this`answers
      ensures Placed(Current()) && Computed(Current())
      ensures didWork <==> old(PendingIds(Current(), model, dim)) != {}
      ensures PendingIds(Current(), model, dim) <= old(PendingIds(Current(), model, dim))
      ensures didWork ==> PendingIds(Current(), model, dim) != old(PendingIds(Current(), model, dim))
      ensures available && old(Settled(Current(), model, dim)) ==> Settled(Current(), model, dim)
      ensures var before := |old(PendingIds(Current(), model, dim))|;
              |PendingIds(Current(), model, dim)| == if before <= 48 then 0 else before - 48
    {
      ghost var before := PendingIds(Current(), model, dim);
      if Settled(Current(), model, dim) { SweepKeepsSettled(Current(), model, dim); }
      var pending := PendingEmbeddings(model, dim);
      assert PendingIds(Current(), model, dim) == before;
      if pending == [] {
        return false;
      }
      StoreFirst(model, dim, pending, embed, available);
      return true;
    }

    method StoreFirst(model: string, dim: nat, pending: seq<Pending>, embed: string -> Vector, available: bool)
      requires Placed(Current()) && Computed(Current()) && Listed(owners, pending) && pending != []
      requires Ids(pending) == PendingIds(Current(), model, dim)
      modifies this`main, this`sidecar, this`answers
      ensures Placed(Current()) && Computed(Current()) && PendingIds(Current(), model, dim) < Ids(pending)
      ensures |PendingIds(Current(), model, dim)| == if |Ids(pending)| <= 48 then 0 else |Ids(pending)| - 48
      ensures available && old(Settled(Current(), model, dim)) ==> Settled(Current(), model, dim)
    {
      var size := if |pending| < EMBEDDING_BATCH_SIZE then |pending| else EMBEDDING_BATCH_SIZE;
      var batch := pending[..size];
      assert pending[0] in batch && pending[0].id in Ids(batch) && pending[0].id in Ids(pending);
      BatchCounts(owners, pending, size);
      StoreBatch(model, dim, batch, embed, available);
    }

    /** The worker's loop: when every call is answered, nothing stays pending, and the index stays a mirror. */
    method EmbeddingLoop(model: string, dim: nat, embed: string -> Vector, available: bool)
      requires Placed(Current()) && Computed(Current())
      modifies this`main, this`sidecar, this`answers
      ensures Placed(Current()) && Computed(Current()) && PendingIds(Current(), model, dim) == {}
      ensures available && old(Settled(Current(), model, dim)) ==> Settled(Current(), model, dim)
    {
      var didWork := true;
      while didWork
        invariant available && old(Settled(Current(), model, dim)) ==> Settled(Current(), model, dim)
        invariant Placed(Current()) && Computed(Current())
        invariant !didWork ==> PendingIds(Current(), model, dim) == {}
        decreases didWork, |PendingIds(Current(), model, dim)|
      {
        ghost var before := PendingIds(Current(), model, dim);
        didWork := ProcessEmbeddingBatch(model, dim, embed, available);
        SmallerSet(PendingIds(Current(), model, dim), before);
      }
    }
  }

  lemma SmallerSet(a: set<nat>, b: set<nat>)
    requires a <= b
    ensures a == b || |a| < |b|
  {
    assert b == a + (b - a);
  }

  lemma BatchItems(owners: map<nat, Owner>, batch: seq<Pending>, embed: string -> Vector)
    requires Listed(owners, batch)
    ensures forall item | item in Embedded(batch, embed) :: item.id in owners && item.text == owners[item.id].text
    ensures forall item | item in Embedded(batch, embed) ::
              item.space == owners[item.id].space && item.kind == owners[item.id].kind
    ensures ItemIds(Embedded(batch, embed)) == Ids(batch)
  {
    forall item | item in Embedded(batch, embed)
      ensures item.id in owners && item.text == owners[item.id].text
      ensures item.space == owners[item.id].space && item.kind == owners[item.id].kind {
      var k :| 0 <= k < |batch| && item == Embedded(batch, embed)[k];
      assert batch[k] in batch;
    }
    EmbeddedIds(batch, embed);
  }

  lemma EmbeddedIds(batch: seq<Pending>, embed: string -> Vector)
    ensures ItemIds(Embedded(batch, embed)) == Ids(batch)
  {
    var items := Embedded(batch, embed);
    forall id ensures id in ItemIds(items) <==> id in Ids(batch) {
      if p :| p in batch && p.id == id {
        var k :| 0 <= k < |batch| && batch[k] == p;
        assert items[k] in items;
      }
      if item :| item in items && item.id == id {
        var k :| 0 <= k < |batch| && items[k] == item;
        assert batch[k] in batch;
      }
    }
  }

  /** Each pending owner once, with what a worker is to embed. */
  ghost predicate Listed(owners: map<nat, Owner>, pending: seq<Pending>) {
    && (forall p | p in pending ::
          p.id in owners && p == Pending(owners[p.id].space, owners[p.id].kind, p.id, owners[p.id].text))
    && (forall j, k | 0 <= j < k < |pending| :: pending[j].id != pending[k].id)
  }

  /** The owner with its present text, when the main table has no vector of that text, model and dimension for it. */
  ghost predicate NeedsVector(owners: map<nat, Owner>, main: map<nat, Embedding>, model: string, dim: nat, p: Pending)
  {
    && p.id in owners && p == Pending(owners[p.id].space, owners[p.id].kind, p.id, owners[p.id].text)
    && (p.id in main ==> main[p.id].hash.text != p.text || main[p.id].model != model || main[p.id].dim != dim)
  }

  ghost predicate AreNeeded(owners: map<nat, Owner>, main: map<nat, Embedding>, model: string, dim: nat,
                            pending: seq<Pending>)
  {
    forall p :: p in pending <==> NeedsVector(owners, main, model, dim, p)
  }

  /** Only rows whose owner is gone have been removed. */
  ghost predicate WithoutOrphans(main: map<nat, Embedding>, main': map<nat, Embedding>, owners: map<nat, Owner>) {
    && (forall id :: id in main' <==> id in main && id in owners)
    && (forall id | id in main' :: main'[id] == main[id])
  }

  lemma PendingAre(s: State, model: string, dim: nat, pending: seq<Pending>)
    requires Ids(pending) == PendingIds(s, model, dim) && Listed(s.owners, pending)
    ensures AreNeeded(s.owners, s.main, model, dim, pending)
  {
    forall p ensures p in pending <==> NeedsVector(s.owners, s.main, model, dim, p) {
      if p in pending {
        assert p.id in Ids(pending);
      }
      if NeedsVector(s.owners, s.main, model, dim, p) {
        assert p.id in PendingIds(s, model, dim);
        var q :| q in pending && q.id == p.id;
        assert q == p;
      }
    }
  }

  lemma {:induction false} AsManyIds(pending: seq<Pending>)
    requires forall j, k | 0 <= j < k < |pending| :: pending[j].id != pending[k].id
    ensures |Ids(pending)| == |pending|
  {
    if pending != [] {
      var init, last := pending[..|pending| - 1], pending[|pending| - 1];
      AsManyIds(init);
      assert Ids(pending) == Ids(init) + {last.id} by { IdsSnoc(init, last); assert pending == init + [last]; }
    }
  }

  lemma IdsSnoc(init: seq<Pending>, last: Pending)
    ensures Ids(init + [last]) == Ids(init) + {last.id}
  {
    assert forall p :: p in init + [last] <==> p in init || p == last;
  }

  lemma BatchCounts(owners: map<nat, Owner>, pending: seq<Pending>, n: nat)
    requires Listed(owners, pending) && n <= |pending|
    ensures Listed(owners, pending[..n]) && |Ids(pending)| == |pending|
    ensures |Ids(pending) - Ids(pending[..n])| == |pending| - n
  {
    AsManyIds(pending);
    AsManyIds(pending[..n]);
    assert Ids(pending) == Ids(pending[..n]) + (Ids(pending) - Ids(pending[..n])) by {
      assert forall p | p in pending[..n] :: p in pending;
    }
  }

  lemma AddPending(owners: map<nat, Owner>, pending: seq<Pending>, id: nat)
    requires Listed(owners, pending) && id in owners && id !in Ids(pending)
    ensures var p := Pending(owners[id].space, owners[id].kind, id, owners[id].text);
            Listed(owners, pending + [p]) && Ids(pending + [p]) == Ids(pending) + {id}
  {
    var p := Pending(owners[id].space, owners[id].kind, id, owners[id].text);
    assert forall q :: q in pending + [p] <==> q in pending || q == p;
    assert forall j | 0 <= j < |pending| :: pending[j].id in Ids(pending);
  }
}

/**
  Watermark catch-up of the Person and UserModel cards.

  A fold reads a card and the Memories changed since the card's watermark, runs for as long as
  the model takes, and commits by compare-and-set while writers, merges and other folds keep
  running.  `folded` records which version of which Memory a committed fold has been given.
 */
module CardCatchup {
  import opened Wrappers

  datatype Owner = Person(id: nat) | User

  /** One row; its version is the stamp of the transaction that last changed it. */
  datatype Memory = Memory(inferred: bool, aboutUser: bool, active: bool, updatedAt: nat, people: set<nat>)

  datatype Version = Version(memory: nat, stamp: nat)

  /** What a fold in flight has read; `merged` notes a later merge into its owner. */
  datatype Snapshot = Snapshot(owner: Owner, delta: set<Version>, linked: set<nat>, watermark: Option<nat>,
                               readAt: nat, merged: bool)

  /** `sources` holds the cards' watermarks; an owner without one has NULL. */
  datatype Store = Store(clock: nat, rows: seq<Memory>, people: set<nat>, sources: map<Owner, nat>,
                         inFlight: map<nat, Snapshot>, folded: set<(Owner, Version)>)
  {
    function Source(o: Owner): Option<nat> {
      if o in sources then Some(sources[o]) else None
    }
  }

  datatype Event =
    | Write(added: seq<Memory>, withdrawn: set<nat>)
    | Read(fold: nat, owner: Owner)
    | Commit(fold: nat, inferences: nat, retracted: set<nat>)
    | Merge(source: nat, target: nat)
    | Overwrite
    | NewPerson(id: nat)

  predicate Relevant(m: Memory, o: Owner) {
    match o
    case Person(p) => !m.inferred && p in m.people
    case User => m.aboutUser
  }

  /** The owners whose cards are kept: people that were not merged away, and the user. */
  predicate Live(s: Store, o: Owner) {
    o.User? || o.id in s.people
  }

  function Watermark(rows: seq<Memory>, o: Owner): (w: Option<nat>)
    ensures w.None? <==> forall i | 0 <= i < |rows| :: !Relevant(rows[i], o)
    ensures w.Some? ==> forall i | 0 <= i < |rows| && Relevant(rows[i], o) :: rows[i].updatedAt <= w.value
    ensures w.Some? ==> exists i :: 0 <= i < |rows| && Relevant(rows[i], o) && rows[i].updatedAt == w.value
  {
    if rows == [] then None
    else
      var rest, last := Watermark(rows[..|rows| - 1], o), rows[|rows| - 1];
      if !Relevant(last, o) then rest
      else if rest.Some? && rest.value > last.updatedAt then rest
      else Some(last.updatedAt)
  }

  function VersionOf(rows: seq<Memory>, i: nat): Version
    requires i < |rows|
  {
    Version(i, rows[i].updatedAt)
  }

  /** The fold read: everything past the card's own watermark, withdrawn rows included. */
  function Delta(rows: seq<Memory>, o: Owner, since: Option<nat>): set<Version> {
    set i | 0 <= i < |rows| && Relevant(rows[i], o) && (since.None? || rows[i].updatedAt > since.value) ::
      VersionOf(rows, i)
  }

  function Linked(rows: seq<Memory>, o: Owner): set<nat> {
    set i | 0 <= i < |rows| && Relevant(rows[i], o)
  }

  // ----- Staleness

  predicate IsProfileStale(source: Option<nat>, watermark: Option<nat>) {
    watermark.Some? && source != watermark
  }

  predicate Behind(source: Option<nat>, watermark: Option<nat>) {
    watermark.Some? && (source.None? || source.value < watermark.value)
  }

  /** The row filter of the stale scan over people. */
  predicate ListedStale(s: Store, p: nat) {
    p in s.people && Behind(s.Source(Person(p)), Watermark(s.rows, Person(p)))
  }

  // ----- The store's operations

  function Withdraw(rows: seq<Memory>, ids: set<nat>, now: nat): (r: seq<Memory>)
    ensures |r| == |rows|
    ensures forall i | 0 <= i < |rows| ::
              r[i] == if i in ids then rows[i].(active := false, updatedAt := now) else rows[i]
  {
    seq(|rows|, i requires 0 <= i < |rows| => if i in ids then rows[i].(active := false, updatedAt := now) else rows[i])
  }

  function Stamped(rows: seq<Memory>, now: nat): (r: seq<Memory>)
    ensures |r| == |rows| && forall i | 0 <= i < |rows| :: r[i] == rows[i].(active := true, updatedAt := now)
  {
    seq(|rows|, i requires 0 <= i < |rows| => rows[i].(active := true, updatedAt := now))
  }

  /** One transaction of a writer: all its new and withdrawn rows share one stamp. */
  function WriteRows(s: Store, added: seq<Memory>, withdrawn: set<nat>): Store {
    var now := s.clock + 1;
    s.(clock := now, rows := Withdraw(s.rows, withdrawn, now) + Stamped(added, now))
  }

  function SnapshotOf(s: Store, o: Owner): Snapshot {
    Snapshot(o, Delta(s.rows, o, s.Source(o)), Linked(s.rows, o), Watermark(s.rows, o), s.clock, false)
  }

  /** The compare-and-set: the watermark is the one read, and the card is behind it. */
  predicate Passes(s: Store, snapshot: Snapshot) {
    && Watermark(s.rows, snapshot.owner) == snapshot.watermark
    && match s.Source(snapshot.owner)
       case None => true
       case Some(source) => snapshot.watermark.Some? && source < snapshot.watermark.value
  }

  function SetSource(sources: map<Owner, nat>, o: Owner, watermark: Option<nat>): map<Owner, nat> {
    if watermark.Some? then sources[o := watermark.value] else sources - {o}
  }

  /** Of the ids the model asks to retract, those naming an active inferred Memory of the person. */
  function Retractable(rows: seq<Memory>, p: nat, ids: set<nat>): set<nat> {
    set i | i in ids && i < |rows| && rows[i].inferred && rows[i].active && p in rows[i].people
  }

  function NewInferences(count: nat, p: nat): seq<Memory> {
    seq(count, _ => Memory(true, false, true, 0, {p}))
  }

  /** The Person commit also adds and retracts inferred Memories of that person. */
  function ActOnInferences(s: Store, o: Owner, inferences: nat, retracted: set<nat>): Store {
    match o
    case User => s
    case Person(p) =>
      WriteRows(s, NewInferences(inferences, p), Retractable(s.rows, p, retracted))
  }

  function WithoutFold(s: Store, fold: nat): Store {
    s.(inFlight := s.inFlight - {fold})
  }

  function CommitFold(s: Store, fold: nat, inferences: nat, retracted: set<nat>): Store
    requires fold in s.inFlight
  {
    var snapshot := s.inFlight[fold];
    var done := WithoutFold(s, fold);
    if !Passes(s, snapshot) then done
    else
      var acted := ActOnInferences(done, snapshot.owner, inferences, retracted);
      acted.(sources := SetSource(acted.sources, snapshot.owner, Watermark(acted.rows, snapshot.owner)),
             folded := acted.folded + set v | v in snapshot.delta :: (snapshot.owner, v))
  }

  function Relink(m: Memory, source: nat, target: nat): Memory {
    if source in m.people then m.(people := m.people - {source} + {target}) else m
  }

  /** The part of a merge that cards see: links move, and the target's watermark is cleared. */
  function MergePeople(s: Store, source: nat, target: nat): Store {
    s.(clock := s.clock + 1,
       rows := seq(|s.rows|, i requires 0 <= i < |s.rows| => Relink(s.rows[i], source, target)),
       people := s.people - {source},
       sources := s.sources - {Person(target)},
       inFlight := map f | f in s.inFlight ::
         if s.inFlight[f].owner == Person(target) then s.inFlight[f].(merged := true) else s.inFlight[f])
  }

  ghost predicate Enabled(s: Store, e: Event) {
    match e
    case Write(added, withdrawn) => forall m | m in added :: m.people <= s.people
    case Read(fold, o) => fold !in s.inFlight && Live(s, o)
    case Commit(fold, _, _) => fold in s.inFlight
    case Merge(source, target) => source in s.people && target in s.people && source != target
    case Overwrite => true
    case NewPerson(id) => NeverSeen(s, id)
  }

  /** A new id: no Memory, card or fold knows it. */
  ghost predicate NeverSeen(s: Store, id: nat) {
    && id !in s.people && Person(id) !in s.sources
    && (forall m | m in s.rows :: id !in m.people)
    && (forall f | f in s.inFlight :: s.inFlight[f].owner != Person(id))
  }

  function Step(s: Store, e: Event): Store
    requires e.Commit? ==> e.fold in s.inFlight
  {
    match e
    case Write(added, withdrawn) => WriteRows(s, added, withdrawn)
    case Read(fold, o) => s.(inFlight := s.inFlight[fold := SnapshotOf(s, o)])
    case Commit(fold, inferences, retracted) => CommitFold(s, fold, inferences, retracted)
    case Merge(source, target) => MergePeople(s, source, target)
    case Overwrite => s.(sources := SetSource(s.sources, User, Watermark(s.rows, User)))
    case NewPerson(id) => s.(people := s.people + {id})
  }

  // ----- The claim and the invariant behind it

  /** The card has been given the current version of every Memory at or below its watermark. */
  ghost predicate CardComplete(s: Store, o: Owner) {
    s.Source(o).Some? ==>
      forall i | 0 <= i < |s.rows| && Relevant(s.rows[i], o) && s.rows[i].updatedAt <= s.Source(o).value ::
        (o, VersionOf(s.rows, i)) in s.folded
  }

  ghost predicate Complete(s: Store) {
    forall o | Live(s, o) :: CardComplete(s, o)
  }

  ghost predicate SourceBehind(s: Store, o: Owner) {
    s.Source(o).Some? ==> Watermark(s.rows, o).Some? && s.Source(o).value <= Watermark(s.rows, o).value
  }

  /** A Memory linked when the snapshot was read has changed since, is in its delta, or was folded. */
  ghost predicate SnapshotSound(s: Store, snapshot: Snapshot) {
    && snapshot.readAt <= s.clock
    && (snapshot.watermark.Some? ==> snapshot.watermark.value <= snapshot.readAt)
    && (forall v | v in snapshot.delta :: v.memory in snapshot.linked)
    && (Live(s, snapshot.owner) ==>
          forall i | i in snapshot.linked :: i < |s.rows| && Relevant(s.rows[i], snapshot.owner))
    && (Live(s, snapshot.owner) ==>
          forall i | 0 <= i < |s.rows| && Relevant(s.rows[i], snapshot.owner)
            && s.rows[i].updatedAt <= snapshot.readAt ::
            if i in snapshot.linked then
              VersionOf(s.rows, i) in snapshot.delta || (snapshot.owner, VersionOf(s.rows, i)) in s.folded
            else snapshot.merged)
  }

  /** No row is newer than the clock, and no card is newer than its evidence. */
  ghost predicate Dated(s: Store) {
    && (forall i | 0 <= i < |s.rows| :: s.rows[i].updatedAt <= s.clock)
    && (forall o | Live(s, o) :: SourceBehind(s, o))
  }

  ghost predicate Sound(s: Store) {
    Dated(s) && forall f | f in s.inFlight :: SnapshotSound(s, s.inFlight[f])
  }

  // ----- One step at a time

  lemma WatermarkAtMostClock(s: Store, o: Owner)
    requires Sound(s)
    ensures Watermark(s.rows, o).Some? ==> Watermark(s.rows, o).value <= s.clock
  {
  }

  /** While every relevant row stays relevant and only gains stamps, watermarks only grow. */
  lemma WatermarkGrows(rows: seq<Memory>, rows': seq<Memory>, o: Owner)
    requires forall i | 0 <= i < |rows| && Relevant(rows[i], o) ::
               i < |rows'| && Relevant(rows'[i], o) && rows[i].updatedAt <= rows'[i].updatedAt
    ensures Watermark(rows, o).Some? ==>
              Watermark(rows', o).Some? && Watermark(rows, o).value <= Watermark(rows', o).value
  {
    if Watermark(rows, o).Some? {
      var i :| 0 <= i < |rows| && Relevant(rows[i], o) && rows[i].updatedAt == Watermark(rows, o).value;
      assert Relevant(rows'[i], o);
    }
  }

  /** Rows written later are newer than every snapshot and every watermark. */
  lemma OldStampsAreOldRows(s: Store, added: seq<Memory>, withdrawn: set<nat>)
    requires forall i | 0 <= i < |s.rows| :: s.rows[i].updatedAt <= s.clock
    ensures var rows' := WriteRows(s, added, withdrawn).rows;
            && |s.rows| <= |rows'|
            && (forall i | 0 <= i < |rows'| && rows'[i].updatedAt <= s.clock :: i < |s.rows| && rows'[i] == s.rows[i])
            && (forall i, o | 0 <= i < |s.rows| && Relevant(s.rows[i], o) :: Relevant(rows'[i], o))
            && (forall i | 0 <= i < |rows'| :: rows'[i].updatedAt <= s.clock + 1)
            && (forall i | 0 <= i < |s.rows| :: s.rows[i].updatedAt <= rows'[i].updatedAt)
  {
  }

  lemma WriteKeepsSnapshot(s: Store, added: seq<Memory>, withdrawn: set<nat>, f: nat)
    requires Sound(s) && f in s.inFlight
    ensures SnapshotSound(WriteRows(s, added, withdrawn), s.inFlight[f])
  {
    OldStampsAreOldRows(s, added, withdrawn);
    assert SnapshotSound(s, s.inFlight[f]);
  }

  lemma WriteKeeps(s: Store, added: seq<Memory>, withdrawn: set<nat>)
    requires Sound(s)
    ensures Sound(WriteRows(s, added, withdrawn))
    ensures Complete(s) ==> Complete(WriteRows(s, added, withdrawn))
  {
    var s' := WriteRows(s, added, withdrawn);
    OldStampsAreOldRows(s, added, withdrawn);
    forall f | f in s'.inFlight ensures SnapshotSound(s', s'.inFlight[f]) {
      WriteKeepsSnapshot(s, added, withdrawn, f);
    }
    forall o | Live(s', o) ensures SourceBehind(s', o) {
      assert SourceBehind(s, o);
      WatermarkGrows(s.rows, s'.rows, o);
    }
    if Complete(s) {
      forall o | Live(s', o) ensures CardComplete(s', o) {
        assert CardComplete(s, o) && SourceBehind(s, o);
        WatermarkAtMostClock(s, o);
      }
    }
  }

  lemma ReadKeeps(s: Store, fold: nat, o: Owner)
    requires Sound(s) && Complete(s) && Enabled(s, Read(fold, o))
    ensures Sound(Step(s, Read(fold, o))) && Complete(Step(s, Read(fold, o)))
  {
    var s' := Step(s, Read(fold, o));
    WatermarkAtMostClock(s, o);
    assert CardComplete(s, o);
    forall f | f in s'.inFlight ensures SnapshotSound(s', s'.inFlight[f]) {
      if f != fold { assert SnapshotSound(s, s.inFlight[f]); }
    }
    forall o' | Live(s', o') ensures SourceBehind(s', o') && CardComplete(s', o') {
      assert SourceBehind(s, o') && CardComplete(s, o');
    }
  }

  lemma MergeKeeps(s: Store, source: nat, target: nat)
    requires Sound(s) && Complete(s) && Enabled(s, Merge(source, target))
    ensures Sound(MergePeople(s, source, target)) && Complete(MergePeople(s, source, target))
  {
    var s' := MergePeople(s, source, target);
    forall o | Live(s', o) && o != Person(target)
      ensures forall i | 0 <= i < |s.rows| :: Relevant(s'.rows[i], o) <==> Relevant(s.rows[i], o)
    {
    }
    forall f | f in s'.inFlight ensures SnapshotSound(s', s'.inFlight[f]) {
      assert SnapshotSound(s, s.inFlight[f]);
      MergeKeepsSnapshot(s, source, target, f);
    }
    forall o | Live(s', o) ensures SourceBehind(s', o) && CardComplete(s', o) {
      assert SourceBehind(s, o) && CardComplete(s, o);
      if o != Person(target) { WatermarkGrows(s.rows, s'.rows, o); }
    }
  }

  lemma MergeKeepsSnapshot(s: Store, source: nat, target: nat, f: nat)
    requires Enabled(s, Merge(source, target)) && f in s.inFlight && SnapshotSound(s, s.inFlight[f])
    ensures SnapshotSound(MergePeople(s, source, target), MergePeople(s, source, target).inFlight[f])
  {
    var s' := MergePeople(s, source, target);
    var snapshot, snapshot' := s.inFlight[f], s'.inFlight[f];
    if Live(s', snapshot.owner) {
      forall i | 0 <= i < |s'.rows| && Relevant(s'.rows[i], snapshot.owner) && s'.rows[i].updatedAt <= snapshot.readAt
        ensures if i in snapshot.linked then
                  VersionOf(s'.rows, i) in snapshot.delta || (snapshot.owner, VersionOf(s'.rows, i)) in s'.folded
                else snapshot'.merged
      {
        assert snapshot.owner != Person(target) ==> Relevant(s.rows[i], snapshot.owner);
      }
    }
  }

  /** Inferences never count for a Person's card, so acting on them changes none of its rows. */
  lemma ActingKeepsRelevant(s: Store, o: Owner, inferences: nat, retracted: set<nat>)
    ensures var rows' := ActOnInferences(s, o, inferences, retracted).rows;
            && |s.rows| <= |rows'|
            && (forall i | 0 <= i < |s.rows| && Relevant(s.rows[i], o) :: rows'[i] == s.rows[i])
            && (forall i | 0 <= i < |rows'| && Relevant(rows'[i], o) :: i < |s.rows| && Relevant(s.rows[i], o))
  {
  }

  lemma ActingKeepsWatermark(s: Store, o: Owner, inferences: nat, retracted: set<nat>)
    ensures Watermark(ActOnInferences(s, o, inferences, retracted).rows, o) == Watermark(s.rows, o)
  {
    var rows' := ActOnInferences(s, o, inferences, retracted).rows;
    ActingKeepsRelevant(s, o, inferences, retracted);
    SameWatermark(s.rows, rows', o);
  }

  lemma SameWatermark(rows: seq<Memory>, rows': seq<Memory>, o: Owner)
    requires |rows| <= |rows'|
    requires forall i | 0 <= i < |rows| && Relevant(rows[i], o) :: rows'[i] == rows[i]
    requires forall i | 0 <= i < |rows'| && Relevant(rows'[i], o) :: i < |rows| && Relevant(rows[i], o)
    ensures Watermark(rows', o) == Watermark(rows, o)
  {
    WatermarkGrows(rows, rows', o);
    WatermarkGrows(rows', rows, o);
  }

  lemma ActingIgnoresSources(s: Store, sources: map<Owner, nat>, o: Owner, inferences: nat, retracted: set<nat>)
    ensures ActOnInferences(s.(sources := sources), o, inferences, retracted) ==
            ActOnInferences(s, o, inferences, retracted).(sources := sources)
    ensures ActOnInferences(s, o, inferences, retracted).sources == s.sources
    ensures ActOnInferences(s, o, inferences, retracted).folded == s.folded
  {
  }

  lemma SetSourceTwice(sources: map<Owner, nat>, o: Owner, first: Option<nat>, second: Option<nat>)
    ensures SetSource(SetSource(sources, o, first), o, second) == SetSource(sources, o, second)
  {
  }

  /** Memories that came to the owner after the read, by a merge, and were not folded since. */
  ghost predicate NoLateLinks(s: Store, snapshot: Snapshot) {
    forall i | 0 <= i < |s.rows| && Relevant(s.rows[i], snapshot.owner) && i !in snapshot.linked ::
      (snapshot.owner, VersionOf(s.rows, i)) in s.folded
  }

  lemma WithoutFoldKeeps(s: Store, fold: nat)
    requires Sound(s)
    ensures Sound(WithoutFold(s, fold))
    ensures Complete(s) ==> Complete(WithoutFold(s, fold))
  {
    var done := WithoutFold(s, fold);
    forall f | f in done.inFlight ensures SnapshotSound(done, done.inFlight[f]) {
      assert SnapshotSound(s, s.inFlight[f]);
    }
    forall o | Live(done, o) ensures SourceBehind(done, o) { assert SourceBehind(s, o); }
    if Complete(s) {
      forall o | Live(done, o) ensures CardComplete(done, o) { assert CardComplete(s, o); }
    }
  }

  lemma ActedKeeps(s: Store, fold: nat, o: Owner, inferences: nat, retracted: set<nat>)
    requires Sound(s)
    ensures var acted := ActOnInferences(WithoutFold(s, fold), o, inferences, retracted);
            Sound(acted) && (Complete(s) ==> Complete(acted))
  {
    WithoutFoldKeeps(s, fold);
    if o.Person? {
      WriteKeeps(WithoutFold(s, fold), NewInferences(inferences, o.id), Retractable(s.rows, o.id, retracted));
    }
  }

  lemma CommitKeepsSound(s: Store, fold: nat, inferences: nat, retracted: set<nat>)
    requires Sound(s) && fold in s.inFlight
    ensures Sound(CommitFold(s, fold, inferences, retracted))
  {
    var snapshot := s.inFlight[fold];
    WithoutFoldKeeps(s, fold);
    if Passes(s, snapshot) {
      ActedKeeps(s, fold, snapshot.owner, inferences, retracted);
      var acted := ActOnInferences(WithoutFold(s, fold), snapshot.owner, inferences, retracted);
      StoringKeepsSound(acted, snapshot.owner, set v | v in snapshot.delta :: (snapshot.owner, v));
    }
  }

  /** Storing a card at its present watermark, with more folded. */
  lemma StoringKeepsSound(s: Store, o: Owner, folded: set<(Owner, Version)>)
    requires Sound(s)
    ensures Sound(s.(sources := SetSource(s.sources, o, Watermark(s.rows, o)), folded := s.folded + folded))
  {
    var s' := s.(sources := SetSource(s.sources, o, Watermark(s.rows, o)), folded := s.folded + folded);
    forall f | f in s'.inFlight ensures SnapshotSound(s', s'.inFlight[f]) { assert SnapshotSound(s, s.inFlight[f]); }
    forall o' | Live(s', o') ensures SourceBehind(s', o') { assert SourceBehind(s, o'); }
  }

  /** What a passing commit does to its own card. */
  lemma CommitEffect(s: Store, fold: nat, inferences: nat, retracted: set<nat>)
    requires fold in s.inFlight && Passes(s, s.inFlight[fold])
    ensures var snapshot, s' := s.inFlight[fold], CommitFold(s, fold, inferences, retracted);
            && s'.Source(snapshot.owner) == snapshot.watermark
            && s'.folded == s.folded + (set v | v in snapshot.delta :: (snapshot.owner, v))
            && |s.rows| <= |s'.rows|
            && (forall i | 0 <= i < |s.rows| && Relevant(s.rows[i], snapshot.owner) :: s'.rows[i] == s.rows[i])
            && (forall i | 0 <= i < |s'.rows| && Relevant(s'.rows[i], snapshot.owner) ::
                  i < |s.rows| && Relevant(s.rows[i], snapshot.owner))
  {
    ActingKeepsRelevant(WithoutFold(s, fold), s.inFlight[fold].owner, inferences, retracted);
    ActingKeepsWatermark(WithoutFold(s, fold), s.inFlight[fold].owner, inferences, retracted);
  }

  /** A Memory the commit covers was in the delta, folded before, or linked late. */
  lemma CoveredBy(s: Store, snapshot: Snapshot, i: nat)
    requires Sound(s) && SnapshotSound(s, snapshot) && Passes(s, snapshot) && Live(s, snapshot.owner)
    requires i < |s.rows| && Relevant(s.rows[i], snapshot.owner)
    ensures VersionOf(s.rows, i) in snapshot.delta || (snapshot.owner, VersionOf(s.rows, i)) in s.folded
            || i !in snapshot.linked
  {
  }

  /** A commit that passes leaves its own card complete exactly when no unfolded Memory was linked late. */
  lemma CommitIsComplete(s: Store, fold: nat, inferences: nat, retracted: set<nat>)
    requires Sound(s) && fold in s.inFlight && Passes(s, s.inFlight[fold]) && Live(s, s.inFlight[fold].owner)
    ensures CardComplete(CommitFold(s, fold, inferences, retracted), s.inFlight[fold].owner)
            <==> NoLateLinks(s, s.inFlight[fold])
  {
    var snapshot := s.inFlight[fold];
    var o, s' := snapshot.owner, CommitFold(s, fold, inferences, retracted);
    CommitEffect(s, fold, inferences, retracted);
    assert SnapshotSound(s, snapshot);
    if NoLateLinks(s, snapshot) {
      forall i | 0 <= i < |s'.rows| && Relevant(s'.rows[i], o) ensures (o, VersionOf(s'.rows, i)) in s'.folded {
        CoveredBy(s, snapshot, i);
      }
    } else {
      var i :| 0 <= i < |s.rows| && Relevant(s.rows[i], o) && i !in snapshot.linked
          && (o, VersionOf(s.rows, i)) !in s.folded;
      assert VersionOf(s.rows, i) !in snapshot.delta;
      assert VersionOf(s'.rows, i) == VersionOf(s.rows, i);
    }
  }

  lemma CommitKeepsComplete(s: Store, fold: nat, inferences: nat, retracted: set<nat>)
    requires Sound(s) && Complete(s) && fold in s.inFlight
    requires Passes(s, s.inFlight[fold]) && Live(s, s.inFlight[fold].owner) ==> NoLateLinks(s, s.inFlight[fold])
    ensures Complete(CommitFold(s, fold, inferences, retracted))
  {
    var snapshot, s' := s.inFlight[fold], CommitFold(s, fold, inferences, retracted);
    WithoutFoldKeeps(s, fold);
    if Passes(s, snapshot) {
      ActedKeeps(s, fold, snapshot.owner, inferences, retracted);
      var acted := ActOnInferences(WithoutFold(s, fold), snapshot.owner, inferences, retracted);
      forall o | Live(s', o) ensures CardComplete(s', o) {
        assert CardComplete(acted, o);
        if o == snapshot.owner {
          CommitIsComplete(s, fold, inferences, retracted);
        }
      }
    }
  }

  // ----- Runs

  /** The commit's owner took part in no merge since the read, and nobody overwrites the user's card. */
  ghost predicate Undisturbed(s: Store, e: Event)
    requires Enabled(s, e)
  {
    (e.Commit? ==> !s.inFlight[e.fold].merged) && !e.Overwrite?
  }

  /** Without a merge into its owner, everything a passing commit covers was linked when it read. */
  lemma UnmergedHasNoLateLinks(s: Store, fold: nat)
    requires Sound(s) && fold in s.inFlight && Passes(s, s.inFlight[fold])
    requires !s.inFlight[fold].merged && Live(s, s.inFlight[fold].owner)
    ensures NoLateLinks(s, s.inFlight[fold])
  {
    assert SnapshotSound(s, s.inFlight[fold]);
  }

  lemma NewPersonKeeps(s: Store, id: nat)
    requires Sound(s) && Enabled(s, NewPerson(id))
    ensures Sound(Step(s, NewPerson(id))) && (Complete(s) ==> Complete(Step(s, NewPerson(id))))
  {
    var s' := Step(s, NewPerson(id));
    forall f | f in s'.inFlight ensures SnapshotSound(s', s'.inFlight[f]) { assert SnapshotSound(s, s.inFlight[f]); }
    forall o | Live(s', o) ensures SourceBehind(s', o) && (Complete(s) ==> CardComplete(s', o)) {
      if o != Person(id) { assert SourceBehind(s, o) && (Complete(s) ==> CardComplete(s, o)); }
    }
  }

  lemma StepKeeps(s: Store, e: Event)
    requires Sound(s) && Complete(s) && Enabled(s, e) && Undisturbed(s, e)
    ensures Sound(Step(s, e)) && Complete(Step(s, e))
  {
    match e
    case Write(added, withdrawn) => WriteKeeps(s, added, withdrawn);
    case Read(fold, o) => ReadKeeps(s, fold, o);
    case Merge(source, target) => MergeKeeps(s, source, target);
    case NewPerson(id) => NewPersonKeeps(s, id);
    case Commit(fold, inferences, retracted) =>
      CommitKeepsSound(s, fold, inferences, retracted);
      if Passes(s, s.inFlight[fold]) && Live(s, s.inFlight[fold].owner) { UnmergedHasNoLateLinks(s, fold); }
      CommitKeepsComplete(s, fold, inferences, retracted);
  }

  ghost predicate Legal(s: Store, events: seq<Event>)
    decreases |events|
  {
    events == [] || (Enabled(s, events[0]) && Legal(Step(s, events[0]), events[1..]))
  }

  ghost predicate UndisturbedRun(s: Store, events: seq<Event>)
    requires Legal(s, events)
    decreases |events|
  {
    events == [] || (Undisturbed(s, events[0]) && UndisturbedRun(Step(s, events[0]), events[1..]))
  }

  ghost function Run(s: Store, events: seq<Event>): Store
    requires Legal(s, events)
    decreases |events|
  {
    if events == [] then s else Run(Step(s, events[0]), events[1..])
  }

  /** Incremental folding loses nothing, for any interleaving of writers, merges and folds in flight. */
  lemma {:induction false} RunLosesNothing(s: Store, events: seq<Event>)
    requires Sound(s) && Complete(s) && Legal(s, events) && UndisturbedRun(s, events)
    ensures Sound(Run(s, events)) && Complete(Run(s, events))
    decreases |events|
  {
    if events != [] {
      StepKeeps(s, events[0]);
      RunLosesNothing(Step(s, events[0]), events[1..]);
    }
  }

  const EMPTY := Store(0, [], {}, map[], map[], {})

  /** A store before its first Memory: every run may start here. */
  lemma EmptyStoreIsSound(people: set<nat>)
    ensures Sound(EMPTY.(people := people)) && Complete(EMPTY.(people := people))
  {
  }

  // ----- What disturbed runs keep

  lemma WriteKeepsDated(s: Store, added: seq<Memory>, withdrawn: set<nat>)
    requires Dated(s)
    ensures Dated(WriteRows(s, added, withdrawn))
  {
    var s' := WriteRows(s, added, withdrawn);
    OldStampsAreOldRows(s, added, withdrawn);
    forall o | Live(s', o) ensures SourceBehind(s', o) {
      assert SourceBehind(s, o);
      WatermarkGrows(s.rows, s'.rows, o);
    }
  }

  lemma StoringKeepsDated(s: Store, o: Owner, folded: set<(Owner, Version)>)
    requires Dated(s)
    ensures Dated(s.(sources := SetSource(s.sources, o, Watermark(s.rows, o)), folded := folded))
  {
    var s' := s.(sources := SetSource(s.sources, o, Watermark(s.rows, o)), folded := folded);
    forall o' | Live(s', o') ensures SourceBehind(s', o') { assert SourceBehind(s, o'); }
  }

  lemma CommitKeepsDated(s: Store, fold: nat, inferences: nat, retracted: set<nat>)
    requires Dated(s) && fold in s.inFlight
    ensures Dated(CommitFold(s, fold, inferences, retracted))
  {
    var o, done := s.inFlight[fold].owner, WithoutFold(s, fold);
    forall o' | Live(done, o') ensures SourceBehind(done, o') { assert SourceBehind(s, o'); }
    if Passes(s, s.inFlight[fold]) {
      if o.Person? { WriteKeepsDated(done, NewInferences(inferences, o.id), Retractable(s.rows, o.id, retracted)); }
      StoringKeepsDated(ActOnInferences(done, o, inferences, retracted), o,
        CommitFold(s, fold, inferences, retracted).folded);
    }
  }

  lemma MergeKeepsDated(s: Store, source: nat, target: nat)
    requires Dated(s) && Enabled(s, Merge(source, target))
    ensures Dated(MergePeople(s, source, target))
  {
    var s' := MergePeople(s, source, target);
    forall o | Live(s', o) ensures SourceBehind(s', o) {
      assert SourceBehind(s, o);
      if o != Person(target) { WatermarkGrows(s.rows, s'.rows, o); }
    }
  }

  lemma StepKeepsDated(s: Store, e: Event)
    requires Dated(s) && Enabled(s, e)
    ensures Dated(Step(s, e))
  {
    match e
    case Write(added, withdrawn) => WriteKeepsDated(s, added, withdrawn);
    case Commit(fold, inferences, retracted) => CommitKeepsDated(s, fold, inferences, retracted);
    case Merge(source, target) => MergeKeepsDated(s, source, target);
    case _ =>
      var s' := Step(s, e);
      forall o | Live(s', o) ensures SourceBehind(s', o) {
        if Live(s, o) { assert SourceBehind(s, o); }
      }
  }

  /** In every run, disturbed or not, no card is newer than its evidence, so both staleness tests agree. */
  lemma {:induction false} RunStaysDated(s: Store, events: seq<Event>)
    requires Dated(s) && Legal(s, events)
    ensures Dated(Run(s, events))
    ensures forall p | p in Run(s, events).people ::
              ListedStale(Run(s, events), p) <==>
              IsProfileStale(Run(s, events).Source(Person(p)), Watermark(Run(s, events).rows, Person(p)))
    decreases |events|
  {
    if events == [] {
      forall p
        ensures p in s.people ==>
                  (ListedStale(s, p) <==> IsProfileStale(s.Source(Person(p)), Watermark(s.rows, Person(p)))) {
        StalenessTestsAgree(s, p);
      }
    } else {
      StepKeepsDated(s, events[0]);
      RunStaysDated(Step(s, events[0]), events[1..]);
    }
  }

  // ----- The excluded runs lose evidence

  lemma RunCons(s: Store, e: Event, rest: seq<Event>)
    requires Enabled(s, e) && Legal(Step(s, e), rest)
    ensures Legal(s, [e] + rest) && Run(s, [e] + rest) == Run(Step(s, e), rest)
  {
    assert ([e] + rest)[1..] == rest;
  }

  lemma WatermarkIs(rows: seq<Memory>, o: Owner, newest: nat)
    requires newest < |rows| && Relevant(rows[newest], o)
    requires forall i | 0 <= i < |rows| && Relevant(rows[i], o) :: rows[i].updatedAt <= rows[newest].updatedAt
    ensures Watermark(rows, o) == Some(rows[newest].updatedAt)
  {
  }

  /**
    The family of runs the condition shuts out: while a fold of `target` is in flight, a person is
    merged into `target` whose Memories are none of them newer than what the fold has read.
   */
  ghost predicate OlderEvidenceArrives(s: Store, fold: nat, source: nat, target: nat, newest: nat, lost: nat) {
    && Enabled(s, Merge(source, target))
    && fold in s.inFlight && s.inFlight[fold].owner == Person(target)
    && newest < |s.rows| && Relevant(s.rows[newest], Person(target))
    && s.inFlight[fold].watermark == Some(s.rows[newest].updatedAt)
    && (forall i | 0 <= i < |s.rows| && (Relevant(s.rows[i], Person(target)) || Relevant(s.rows[i], Person(source))) ::
          s.rows[i].updatedAt <= s.rows[newest].updatedAt)
    && lost < |s.rows| && Relevant(s.rows[lost], Person(source)) && !Relevant(s.rows[lost], Person(target))
    && (Person(target), VersionOf(s.rows, lost)) !in s.folded
  }

  /** The newest stamp is still the one that was read, so the commit passes, and `lost` is never folded. */
  lemma MergeDuringFoldLosesEvidence(s: Store, fold: nat, source: nat, target: nat, newest: nat, lost: nat)
    requires Sound(s) && Complete(s) && OlderEvidenceArrives(s, fold, source, target, newest, lost)
    ensures var merged := Step(s, Merge(source, target));
            && Passes(merged, merged.inFlight[fold])
            && forall inferences, retracted :: !Complete(CommitFold(merged, fold, inferences, retracted))
  {
    var merged := Step(s, Merge(source, target));
    MergeKeeps(s, source, target);
    WatermarkIs(merged.rows, Person(target), newest);
    assert SnapshotSound(s, s.inFlight[fold]);
    assert lost !in merged.inFlight[fold].linked;
    assert (Person(target), VersionOf(merged.rows, lost)) !in merged.folded;
    forall inferences, retracted ensures !Complete(CommitFold(merged, fold, inferences, retracted)) {
      CommitIsComplete(merged, fold, inferences, retracted);
      assert Live(CommitFold(merged, fold, inferences, retracted), Person(target));
    }
  }

  const ABOUT_ONE := Memory(false, false, true, 0, {1})
  const ABOUT_ZERO := Memory(false, false, true, 0, {0})

  const TWO_PEOPLE := EMPTY.(people := {0, 1})
  const TWO_MEMORIES :=
    TWO_PEOPLE.(clock := 2, rows := [ABOUT_ONE.(updatedAt := 1), ABOUT_ZERO.(updatedAt := 2)])

  /** Two people get a Memory each; while the newer one is folded, the person of the older one is merged in. */
  const MERGE_START := [NewPerson(0), NewPerson(1)] + [Write([ABOUT_ONE], {}), Write([ABOUT_ZERO], {})]
  const MERGE_END := [Merge(1, 0), Commit(7, 0, {})]
  const MERGE_RUN := MERGE_START + ([Read(7, Person(0))] + MERGE_END)

  lemma RunTwo(s: Store, e: Event, e': Event)
    requires Enabled(s, e) && Enabled(Step(s, e), e')
    ensures Legal(s, [e, e']) && Run(s, [e, e']) == Step(Step(s, e), e')
  {
    RunCons(Step(s, e), e', []);
    RunCons(s, e, [e']);
    assert [e'] + [] == [e'] && [e] + [e'] == [e, e'];
  }

  lemma FirstOfParts(before: seq<Event>, after: seq<Event>)
    requires before != []
    ensures before + after == [before[0]] + (before[1..] + after)
  {
  }

  lemma {:induction false} RunParts(s: Store, before: seq<Event>, after: seq<Event>)
    requires Legal(s, before) && Legal(Run(s, before), after)
    ensures Legal(s, before + after) && Run(s, before + after) == Run(Run(s, before), after)
    decreases |before|
  {
    if before == [] {
      assert before + after == after;
    } else {
      RunParts(Step(s, before[0]), before[1..], after);
      RunCons(s, before[0], before[1..] + after);
      FirstOfParts(before, after);
    }
  }

  lemma MergeRunStarts()
    ensures Legal(EMPTY, MERGE_START) && Run(EMPTY, MERGE_START) == TWO_MEMORIES
  {
    RunTwo(EMPTY, NewPerson(0), NewPerson(1));
    assert Step(Step(EMPTY, NewPerson(0)), NewPerson(1)) == TWO_PEOPLE;
    assert Step(TWO_PEOPLE, Write([ABOUT_ONE], {})).rows == [ABOUT_ONE.(updatedAt := 1)];
    RunTwo(TWO_PEOPLE, Write([ABOUT_ONE], {}), Write([ABOUT_ZERO], {}));
    RunParts(EMPTY, [NewPerson(0), NewPerson(1)], [Write([ABOUT_ONE], {}), Write([ABOUT_ZERO], {})]);
  }

  lemma OlderEvidenceIsRead() returns (read: Store)
    ensures Enabled(TWO_MEMORIES, Read(7, Person(0))) && read == Step(TWO_MEMORIES, Read(7, Person(0)))
    ensures Sound(read) && Complete(read) && OlderEvidenceArrives(read, 7, 1, 0, 1, 0)
  {
    WatermarkIs(TWO_MEMORIES.rows, Person(0), 1);
    read := Step(TWO_MEMORIES, Read(7, Person(0)));
    ReadKeeps(TWO_MEMORIES, 7, Person(0));
  }

  lemma MergeRunFails(read: Store)
    requires Sound(read) && Complete(read) && OlderEvidenceArrives(read, 7, 1, 0, 1, 0)
    ensures Legal(read, MERGE_END) && !Complete(Run(read, MERGE_END))
  {
    MergeDuringFoldLosesEvidence(read, 7, 1, 0, 1, 0);
    RunTwo(read, Merge(1, 0), Commit(7, 0, {}));
  }

  /** So a run from the empty store ends with a card that never saw the older Memory. */
  lemma OlderEvidenceCanArrive()
    ensures Legal(EMPTY, MERGE_RUN) && !Complete(Run(EMPTY, MERGE_RUN))
  {
    var read := OlderEvidenceIsRead();
    MergeRunFails(read);
    RunCons(TWO_MEMORIES, Read(7, Person(0)), MERGE_END);
    MergeRunStarts();
    RunParts(EMPTY, MERGE_START, [Read(7, Person(0))] + MERGE_END);
  }

  /** Importing a user card stamps it as current: it is complete exactly when everything about the user was folded. */
  lemma OverwriteIsComplete(s: Store)
    ensures CardComplete(Step(s, Overwrite), User) <==>
            forall i | 0 <= i < |s.rows| && Relevant(s.rows[i], User) :: (User, VersionOf(s.rows, i)) in s.folded
  {
    var s' := Step(s, Overwrite);
    if i :| 0 <= i < |s.rows| && Relevant(s.rows[i], User) && (User, VersionOf(s.rows, i)) !in s.folded {
      assert s'.Source(User) == Watermark(s.rows, User) && VersionOf(s'.rows, i) == VersionOf(s.rows, i);
    }
  }

  /** So one Memory about the user that was not folded is enough for an import to skip it. */
  lemma OverwriteSkipsEvidence(s: Store, skipped: nat)
    requires skipped < |s.rows| && Relevant(s.rows[skipped], User) && (User, VersionOf(s.rows, skipped)) !in s.folded
    ensures !Complete(Step(s, Overwrite))
  {
    OverwriteIsComplete(s);
    assert Live(Step(s, Overwrite), User);
  }

  const ABOUT_USER := Memory(false, true, true, 0, {})

  const FIRST_WRITTEN := EMPTY.(clock := 1, rows := [ABOUT_USER.(updatedAt := 1)])
  const FIRST_READ :=
    FIRST_WRITTEN.(inFlight := map[0 := Snapshot(User, {Version(0, 1)}, {0}, Some(1), 1, false)])
  const FIRST_FOLDED := FIRST_WRITTEN.(sources := map[User := 1], folded := {(User, Version(0, 1))})
  const SECOND_WRITTEN :=
    FIRST_FOLDED.(clock := 2, rows := [ABOUT_USER.(updatedAt := 1), ABOUT_USER.(updatedAt := 2)])

  /** One Memory about the user is folded, a second one arrives, and a card is imported. */
  const IMPORT_START := [Write([ABOUT_USER], {}), Read(0, User)]
  const IMPORT_MIDDLE := [Commit(0, 0, {}), Write([ABOUT_USER], {})]
  const IMPORT_RUN := IMPORT_START + (IMPORT_MIDDLE + [Overwrite])

  lemma FirstIsRead()
    ensures Legal(EMPTY, IMPORT_START) && Run(EMPTY, IMPORT_START) == FIRST_READ
  {
    var w, r := Write([ABOUT_USER], {}), Read(0, User);
    assert Step(EMPTY, w).rows == FIRST_WRITTEN.rows;
    WatermarkIs(FIRST_WRITTEN.rows, User, 0);
    assert VersionOf(FIRST_WRITTEN.rows, 0) == Version(0, 1);
    assert SnapshotOf(FIRST_WRITTEN, User) == Snapshot(User, {Version(0, 1)}, {0}, Some(1), 1, false);
    RunTwo(EMPTY, w, r);
  }

  lemma FirstIsFolded()
    ensures Legal(FIRST_READ, IMPORT_MIDDLE) && Run(FIRST_READ, IMPORT_MIDDLE) == SECOND_WRITTEN
  {
    var c, w := Commit(0, 0, {}), Write([ABOUT_USER], {});
    WatermarkIs(FIRST_WRITTEN.rows, User, 0);
    assert Step(FIRST_READ, c) == FIRST_FOLDED;
    assert Step(FIRST_FOLDED, w).rows == SECOND_WRITTEN.rows;
    RunTwo(FIRST_READ, c, w);
  }

  /** The second Memory is at or below the imported card's watermark and was never folded. */
  lemma ImportSkipsTheSecondMemory()
    ensures Legal(EMPTY, IMPORT_RUN) && !Complete(Run(EMPTY, IMPORT_RUN))
  {
    OverwriteSkipsEvidence(SECOND_WRITTEN, 1);
    RunCons(SECOND_WRITTEN, Overwrite, []);
    FirstIsFolded();
    RunParts(FIRST_READ, IMPORT_MIDDLE, [Overwrite]);
    FirstIsRead();
    RunParts(EMPTY, IMPORT_START, IMPORT_MIDDLE + [Overwrite]);
    assert [Overwrite] + [] == [Overwrite];
  }

  // ----- The two staleness tests agree, and catching up ends

  /** The scan's `<` and the view's `!=` name the same people, so a listed person is never skipped. */
  lemma StalenessTestsAgree(s: Store, p: nat)
    requires Dated(s)
    ensures ListedStale(s, p) <==> p in s.people && IsProfileStale(s.Source(Person(p)), Watermark(s.rows, Person(p)))
  {
    assert Live(s, Person(p)) ==> SourceBehind(s, Person(p));
  }

  function StalePeople(s: Store): set<nat> {
    set p | p in s.people && ListedStale(s, p)
  }

  /** A fold read and committed with nothing in between passes its compare-and-set. */
  lemma FreshReadPasses(s: Store, fold: nat, p: nat)
    requires ListedStale(s, p) && fold !in s.inFlight
    ensures var read := Step(s, Read(fold, Person(p)));
            Passes(read, read.inFlight[fold]) && WithoutFold(read, fold).inFlight == s.inFlight
    ensures Sound(s) && Complete(s) ==>
              Sound(Step(s, Read(fold, Person(p)))) && Complete(Step(s, Read(fold, Person(p))))
  {
    if Sound(s) && Complete(s) { ReadKeeps(s, fold, Person(p)); }
  }

  lemma CommitSettles(s: Store, fold: nat, p: nat, inferences: nat, retracted: set<nat>)
    requires fold in s.inFlight && s.inFlight[fold].owner == Person(p) && Passes(s, s.inFlight[fold])
    ensures var s' := CommitFold(s, fold, inferences, retracted);
            && s'.inFlight == s.inFlight - {fold} && s'.people == s.people
            && StalePeople(s') == StalePeople(s) - {p}
  {
    var s' := CommitFold(s, fold, inferences, retracted);
    forall q | q in s.people ensures ListedStale(s', q) <==> ListedStale(s, q) && q != p {
      OthersKeepWatermark(s, fold, p, inferences, retracted, q);
      StaleAfter(s, s', p, q);
    }
  }

  lemma ReadChangesNoCard(s: Store, fold: nat, o: Owner)
    requires Dated(s) && Enabled(s, Read(fold, o))
    ensures Dated(Step(s, Read(fold, o))) && StalePeople(Step(s, Read(fold, o))) == StalePeople(s)
  {
    StepKeepsDated(s, Read(fold, o));
    assert forall q :: ListedStale(Step(s, Read(fold, o)), q) <==> ListedStale(s, q);
  }

  /** With nobody else writing, an attempt on a stale person commits, and settles just that person. */
  lemma AttemptSettles(s: Store, fold: nat, p: nat, inferences: nat, retracted: set<nat>)
    requires Dated(s) && ListedStale(s, p) && fold !in s.inFlight
    ensures var read := Step(s, Read(fold, Person(p)));
            var s' := Step(read, Commit(fold, inferences, retracted));
            && Passes(read, read.inFlight[fold]) && Dated(s') && (Sound(s) && Complete(s) ==> Sound(s') && Complete(s'))
            && s'.inFlight == s.inFlight && s'.people == s.people && StalePeople(s') == StalePeople(s) - {p}
  {
    var read := Step(s, Read(fold, Person(p)));
    FreshReadPasses(s, fold, p);
    ReadChangesNoCard(s, fold, Person(p));
    CommitKeepsDated(read, fold, inferences, retracted);
    if Sound(s) && Complete(s) { StepKeeps(read, Commit(fold, inferences, retracted)); }
    CommitSettles(read, fold, p, inferences, retracted);
  }

  lemma StaleAfter(s: Store, s': Store, p: nat, q: nat)
    requires q in s.people && s'.people == s.people
    requires Watermark(s'.rows, Person(q)) == Watermark(s.rows, Person(q))
    requires q != p ==> s'.Source(Person(q)) == s.Source(Person(q))
    requires q == p ==> s'.Source(Person(q)) == Watermark(s'.rows, Person(q))
    ensures ListedStale(s', q) <==> ListedStale(s, q) && q != p
  {
  }

  lemma OthersKeepWatermark(s: Store, fold: nat, p: nat, inferences: nat, retracted: set<nat>, q: nat)
    requires fold in s.inFlight && s.inFlight[fold].owner == Person(p) && Passes(s, s.inFlight[fold])
    ensures var s' := CommitFold(s, fold, inferences, retracted);
            && Watermark(s'.rows, Person(q)) == Watermark(s.rows, Person(q))
            && (q != p ==> s'.Source(Person(q)) == s.Source(Person(q)))
            && s'.Source(Person(p)) == Watermark(s'.rows, Person(p))
  {
    var done := WithoutFold(s, fold);
    CommitEffect(s, fold, inferences, retracted);
    OthersKeepRows(done, p, inferences, retracted, q);
    SameWatermark(s.rows, ActOnInferences(done, Person(p), inferences, retracted).rows, Person(q));
  }

  lemma OthersKeepRows(s: Store, p: nat, inferences: nat, retracted: set<nat>, q: nat)
    ensures var rows' := ActOnInferences(s, Person(p), inferences, retracted).rows;
            && |s.rows| <= |rows'|
            && (forall i | 0 <= i < |s.rows| && Relevant(s.rows[i], Person(q)) :: rows'[i] == s.rows[i])
            && (forall i | 0 <= i < |rows'| && Relevant(rows'[i], Person(q)) ::
                  i < |s.rows| && Relevant(s.rows[i], Person(q)))
  {
  }

  lemma OnlyTarget(targets: seq<nat>, stale: set<nat>)
    requires targets != [] && forall q :: q in targets <==> q in stale
    requires forall i, j | 0 <= i < j < |targets| :: targets[i] != targets[j]
    ensures targets[0] in stale && (|targets| > 1 <==> stale - {targets[0]} != {})
  {
    assert targets[0] in targets;
    if |targets| > 1 { assert targets[1] in targets && targets[1] in stale - {targets[0]}; }
  }

  lemma SmallerSet(a: set<nat>, b: set<nat>)
    requires a <= b
    ensures a == b || |a| < |b|
  {
    assert b == a + (b - a);
  }

  // ----- What reading and committing do, row by row

  /** The Memories that a person's or the user's card is written from. */
  ghost predicate IsEvidence(m: Memory, o: Owner) {
    match o
    case Person(p) => !m.inferred && p in m.people
    case User => m.aboutUser
  }

  /** `w` is the newest stamp of the card's evidence, if there is any. */
  ghost predicate IsNewest(rows: seq<Memory>, o: Owner, w: Option<nat>) {
    && (forall i | 0 <= i < |rows| && IsEvidence(rows[i], o) :: w.Some? && rows[i].updatedAt <= w.value)
    && (w.Some? ==> exists i :: 0 <= i < |rows| && IsEvidence(rows[i], o) && rows[i].updatedAt == w.value)
  }

  /** Everything the card has not been given: all evidence past its watermark, in its present version. */
  ghost predicate IsDelta(rows: seq<Memory>, o: Owner, since: Option<nat>, delta: set<Version>) {
    forall v :: v in delta <==>
      && v.memory < |rows| && v.stamp == rows[v.memory].updatedAt && IsEvidence(rows[v.memory], o)
      && (since.None? || rows[v.memory].updatedAt > since.value)
  }

  lemma SnapshotIs(s: Store, o: Owner)
    ensures var read := SnapshotOf(s, o);
            && read.owner == o && IsDelta(s.rows, o, s.Source(o), read.delta) && IsNewest(s.rows, o, read.watermark)
            && (forall i: nat :: i in read.linked <==> i < |s.rows| && IsEvidence(s.rows[i], o))
  {
    var read := SnapshotOf(s, o);
    assert forall i | 0 <= i < |s.rows| :: IsEvidence(s.rows[i], o) <==> Relevant(s.rows[i], o);
    forall v ensures v in read.delta <==>
      && v.memory < |s.rows| && v.stamp == s.rows[v.memory].updatedAt && IsEvidence(s.rows[v.memory], o)
      && (s.Source(o).None? || s.rows[v.memory].updatedAt > s.Source(o).value) {
      if v.memory < |s.rows| && v.stamp == s.rows[v.memory].updatedAt { assert v == VersionOf(s.rows, v.memory); }
    }
  }

  lemma WatermarkIsNewest(rows: seq<Memory>, o: Owner, w: Option<nat>)
    ensures IsNewest(rows, o, w) <==> Watermark(rows, o) == w
  {
    assert forall i | 0 <= i < |rows| :: IsEvidence(rows[i], o) <==> Relevant(rows[i], o);
  }

  /** The card still has the evidence that was read, and is not written from it or from newer evidence yet. */
  ghost predicate MayCommit(rows: seq<Memory>, sources: map<Owner, nat>, o: Owner, watermark: Option<nat>) {
    && IsNewest(rows, o, watermark)
    && (o in sources ==> watermark.Some? && sources[o] < watermark.value)
  }

  /** Retractions end this person's active inferences only; new inferences are the person's alone. */
  ghost predicate ActedOn(rows: seq<Memory>, rows': seq<Memory>, p: nat, inferences: nat, retracted: set<nat>, now: nat)
  {
    && |rows'| == |rows| + inferences
    && (forall i: nat | i < |rows| ::
          rows'[i] ==
          if i in retracted && rows[i].inferred && rows[i].active && p in rows[i].people then
            rows[i].(active := false, updatedAt := now)
          else rows[i])
    && (forall i: nat | |rows| <= i < |rows'| ::
          rows'[i] == Memory(true, false, true, now, {p}))
  }

  lemma ActingActs(s: Store, p: nat, inferences: nat, retracted: set<nat>)
    ensures var s' := ActOnInferences(s, Person(p), inferences, retracted);
            s'.clock == s.clock + 1 && ActedOn(s.rows, s'.rows, p, inferences, retracted, s.clock + 1)
  {
  }

  /** A passing commit leaves its person's inferences acted on, its card at the newest stamp and its delta folded. */
  ghost predicate Committed(s: Store, s': Store, snapshot: Snapshot, p: nat, inferences: nat, retracted: set<nat>) {
    && s'.clock == s.clock + 1 && ActedOn(s.rows, s'.rows, p, inferences, retracted, s'.clock)
    && IsNewest(s'.rows, Person(p), s'.Source(Person(p)))
    && (forall other | other != Person(p) :: s'.Source(other) == s.Source(other))
    && (forall f :: f in s'.folded <==> f in s.folded || (f.0 == Person(p) && f.1 in snapshot.delta))
  }

  lemma CommitCommits(s: Store, fold: nat, p: nat, inferences: nat, retracted: set<nat>)
    requires fold in s.inFlight && s.inFlight[fold].owner == Person(p)
    ensures var snapshot, s' := s.inFlight[fold], CommitFold(s, fold, inferences, retracted);
            if MayCommit(s.rows, s.sources, Person(p), snapshot.watermark) then
              Passes(s, snapshot) && Committed(s, s', snapshot, p, inferences, retracted)
            else
              !Passes(s, snapshot) && s' == s.(inFlight := s.inFlight - {fold})
  {
    WatermarkIsNewest(s.rows, Person(p), s.inFlight[fold].watermark);
    if Passes(s, s.inFlight[fold]) {
      PassingCommits(s, fold, p, inferences, retracted);
    }
  }

  lemma PassingCommits(s: Store, fold: nat, p: nat, inferences: nat, retracted: set<nat>)
    requires fold in s.inFlight && s.inFlight[fold].owner == Person(p) && Passes(s, s.inFlight[fold])
    ensures Committed(s, CommitFold(s, fold, inferences, retracted), s.inFlight[fold], p, inferences, retracted)
  {
    var done, s' := WithoutFold(s, fold), CommitFold(s, fold, inferences, retracted);
    var acted := ActOnInferences(done, Person(p), inferences, retracted);
    ActingActs(done, p, inferences, retracted);
    assert s'.rows == acted.rows && s'.clock == acted.clock && acted.sources == s.sources;
    SettingSource(s.sources, Person(p), Watermark(acted.rows, Person(p)), s');
    WatermarkIsNewest(s'.rows, Person(p), s'.Source(Person(p)));
    FoldingAdds(s.folded, Person(p), s.inFlight[fold].delta, s'.folded);
  }

  lemma FoldingAdds(folded: set<(Owner, Version)>, o: Owner, delta: set<Version>, folded': set<(Owner, Version)>)
    requires folded' == folded + set v | v in delta :: (o, v)
    ensures forall f :: f in folded' <==> f in folded || (f.0 == o && f.1 in delta)
  {
  }

  lemma SettingSource(sources: map<Owner, nat>, o: Owner, watermark: Option<nat>, s': Store)
    requires s'.sources == SetSource(sources, o, watermark)
    ensures s'.Source(o) == watermark
    ensures forall other | other != o ::
              s'.Source(other) == if other in sources then Some(sources[other]) else None
  {
  }

  // ----- The store object

  /** What the model returns for one person: new inferences and retractions it asks for. */
  datatype Reply = Reply(inferences: nat, retractions: set<nat>)

  class CardStore {
    var clock: nat
    var rows: seq<Memory>
    var people: set<nat>
    var sources: map<Owner, nat>
    var inFlight: map<nat, Snapshot>
    ghost var folded: set<(Owner, Version)>

    ghost function State(): Store
      reads this
    {
      Store(clock, rows, people, sources, inFlight, folded)
    }

    constructor (people: set<nat>)
      ensures State() == Store(0, [], people, map[], map[], {})
    {
      clock, rows, this.people, sources, inFlight, folded := 0, [], people, map[], map[], {};
    }

    /** The delta read of a card, kept by the caller until it commits. */
    method ReadContext(fold: nat, owner: Owner) returns (snapshot: Snapshot)
      requires Enabled(State(), Read(fold, owner))
      modifies this
      ensures State() == Step(old(State()), Read(fold, owner)) && snapshot == inFlight[fold]
      ensures inFlight - {fold} == old(inFlight) && rows == old(rows) && sources == old(sources)
      ensures snapshot.owner == owner && IsNewest(rows, owner, snapshot.watermark)
      ensures IsDelta(rows, owner, if owner in sources then Some(sources[owner]) else None, snapshot.delta)
    {
      SnapshotIs(State(), owner);
      var since := if owner in sources then Some(sources[owner]) else None;
      snapshot := Snapshot(owner, Delta(rows, owner, since), Linked(rows, owner), Watermark(rows, owner), clock, false);
      inFlight := inFlight[fold := snapshot];
    }

    /** Claims the card by compare-and-set, acts on inferences, then stores the final watermark. */
    method ApplyPersonReasoning(fold: nat, reply: Reply) returns (applied: bool)
      requires fold in inFlight && inFlight[fold].owner.Person?
      modifies this
      ensures State() == Step(old(State()), Commit(fold, reply.inferences, reply.retractions))
      ensures applied == Passes(old(State()), old(inFlight[fold])) && inFlight == old(inFlight) - {fold}
      ensures var snapshot := old(inFlight[fold]);
              && (applied <==> MayCommit(old(rows), old(sources), snapshot.owner, snapshot.watermark))
              && (applied ==> Committed(old(State()), State(), snapshot, snapshot.owner.id, reply.inferences,
                                        reply.retractions))
      ensures !applied ==> rows == old(rows) && sources == old(sources) && folded == old(folded) && clock == old(clock)
    {
      CommitCommits(State(), fold, inFlight[fold].owner.id, reply.inferences, reply.retractions);
      applied := TryCommit(fold, reply);
    }

    method TryCommit(fold: nat, reply: Reply) returns (applied: bool)
      requires fold in inFlight && inFlight[fold].owner.Person?
      modifies this
      ensures State() == Step(old(State()), Commit(fold, reply.inferences, reply.retractions))
      ensures applied == Passes(old(State()), old(inFlight[fold]))
    {
      var snapshot := inFlight[fold];
      var o := snapshot.owner;
      inFlight := inFlight - {fold};
      if Watermark(rows, o) != snapshot.watermark {
        return false;
      }
      if o in sources && (snapshot.watermark.None? || sources[o] >= snapshot.watermark.value) {
        return false;
      }
      ghost var done := State();
      sources := SetSource(sources, o, snapshot.watermark);
      ActOnInferredMemories(o.id, reply);
      ActingIgnoresSources(done, sources, o, reply.inferences, reply.retractions);
      SetSourceTwice(done.sources, o, snapshot.watermark, Watermark(rows, o));
      sources := SetSource(sources, o, Watermark(rows, o));
      folded := folded + set v | v in snapshot.delta :: (o, v);
      return true;
    }

    method ActOnInferredMemories(p: nat, reply: Reply)
      modifies this`clock, this`rows
      ensures State() == ActOnInferences(old(State()), Person(p), reply.inferences, reply.retractions)
    {
      clock := clock + 1;
      rows := Withdraw(rows, Retractable(rows, p, reply.retractions), clock) +
              Stamped(NewInferences(reply.inferences, p), clock);
    }

    /** The stale scan: the people it lists, each once, in whatever order the table has them. */
    method StaleTargets() returns (targets: seq<nat>)
      ensures forall q :: q in targets <==> q in StalePeople(State())
      ensures forall q, w | IsNewest(rows, Person(q), w) ::
                q in targets <==>
                q in people && w.Some? && (Person(q) !in sources || sources[Person(q)] < w.value)
      ensures forall i, j | 0 <= i < j < |targets| :: targets[i] != targets[j]
    {
      forall q, w | IsNewest(rows, Person(q), w) ensures Watermark(rows, Person(q)) == w {
        WatermarkIsNewest(rows, Person(q), w);
      }
      var left := people;
      targets := [];
      while left != {}
        invariant left <= people && forall q :: q in targets <==> q in StalePeople(State()) - left
        invariant forall i, j | 0 <= i < j < |targets| :: targets[i] != targets[j]
        decreases |left|
      {
        var q :| q in left;
        var watermark := Watermark(rows, Person(q));
        if watermark.Some? && (Person(q) !in sources || sources[Person(q)] < watermark.value) {
          targets := targets + [q];
        }
        left := left - {q};
      }
    }

    /** Reads and folds one stale person, with nobody else writing. */
    method FoldPerson(fold: nat, p: nat, reply: Reply) returns (applied: bool)
      requires Dated(State()) && fold !in inFlight && ListedStale(State(), p)
      modifies this
      ensures applied && Dated(State())
      ensures old(Sound(State()) && Complete(State())) ==> Sound(State()) && Complete(State())
      ensures inFlight == old(inFlight) && people == old(people)
              && StalePeople(State()) == old(StalePeople(State())) - {p}
    {
      AttemptSettles(State(), fold, p, reply.inferences, reply.retractions);
      var snapshot := ReadContext(fold, Person(p));
      applied := ApplyPersonReasoning(fold, reply);
    }

    /**
      One attempt: the first listed person is read and folded, or skipped when its view is not stale. It asks to
      be called again while other people were listed, and whenever nothing was committed.
     */
    method Attempt(fold: nat, reply: Reply) returns (again: bool)
      requires Dated(State()) && fold !in inFlight
      modifies this
      ensures Dated(State()) && (old(Sound(State()) && Complete(State())) ==> Sound(State()) && Complete(State()))
      ensures inFlight == old(inFlight) && people == old(people)
      ensures StalePeople(State()) <= old(StalePeople(State())) && (again <==> StalePeople(State()) != {})
      ensures old(StalePeople(State())) != {} ==> StalePeople(State()) != old(StalePeople(State()))
    {
      var targets := StaleTargets();
      if targets == [] {
        return false;
      }
      var p, more := targets[0], |targets| > 1;
      assert p in targets;
      StalenessTestsAgree(State(), p);
      var source := if Person(p) in sources then Some(sources[Person(p)]) else None;
      if !IsProfileStale(source, Watermark(rows, Person(p))) {
        assert false;
      }
      OnlyTarget(targets, StalePeople(State()));
      var applied := FoldPerson(fold, p, reply);
      return more || !applied;
    }

    /** The person reasoner's loop: without other writers it ends, with no stale person left and none skipped. */
    method RunUntilCaughtUp(replies: nat -> Reply)
      requires Dated(State()) && inFlight == map[]
      modifies this
      ensures Dated(State()) && (old(Sound(State()) && Complete(State())) ==> Sound(State()) && Complete(State()))
      ensures StalePeople(State()) == {} && people == old(people)
    {
      var attempt: nat := 0;
      var again := true;
      while again
        invariant Dated(State()) && (old(Sound(State()) && Complete(State())) ==> Sound(State()) && Complete(State()))
        invariant inFlight == map[] && people == old(people)
        invariant !again ==> StalePeople(State()) == {}
        decreases again, |StalePeople(State())|
      {
        ghost var before := StalePeople(State());
        again := Attempt(attempt, replies(attempt));
        SmallerSet(StalePeople(State()), before);
        attempt := attempt + 1;
      }
    }
  }
}

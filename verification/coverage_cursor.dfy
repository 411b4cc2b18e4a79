/**
  The coverage audit: every root walks the space's Memories with its own (stamp, id) cursor.

  An attempt reads a root's backlog in cursor order, audits a prefix of it in one request, and
  commits that root by compare-and-set, re-reading the audited rows' stamps as it does so.
 */
module CoverageCursor {
  import opened Wrappers
  import opened Chunking
  import opened CoverageRequests

  datatype Row = Row(inferred: bool, updatedAt: nat)

  /** The (stamp, id) order every audit reads in; a root that never committed is before all keys. */
  datatype Key = Key(stamp: nat, id: nat)

  datatype Cursor = Origin | At(key: Key)

  predicate Less(a: Key, b: Key) {
    a.stamp < b.stamp || (a.stamp == b.stamp && a.id < b.id)
  }

  predicate Past(c: Cursor, k: Key) {
    c.Origin? || Less(c.key, k)
  }

  /** The evidence one request held, as it was read; `whole` is false if its last Memory was cut. */
  datatype Attempt = Attempt(root: nat, expected: Cursor, chunk: seq<Key>, whole: bool, readAt: nat)

  datatype Audit = Audit(root: nat, version: Key)

  datatype Store = Store(clock: nat, rows: seq<Row>, cursors: seq<Cursor>,
                         inFlight: map<nat, Attempt>, audited: set<Audit>)

  datatype Event =
    | Write(added: seq<bool>, touched: set<nat>)
    | Read(attempt: nat, root: nat, size: nat, whole: bool)
    | Commit(attempt: nat)

  function KeyOf(rows: seq<Row>, id: nat): Key
    requires id < |rows|
  {
    Key(rows[id].updatedAt, id)
  }

  /** The row filter of the backlog read. */
  predicate Behind(rows: seq<Row>, c: Cursor, id: nat) {
    id < |rows| && !rows[id].inferred && Past(c, KeyOf(rows, id))
  }

  function BacklogIds(rows: seq<Row>, c: Cursor): set<nat> {
    set id | 0 <= id < |rows| && Behind(rows, c, id)
  }

  // ----- The ordered backlog

  function InsertKey(k: Key, keys: seq<Key>): seq<Key> {
    if keys == [] then [k]
    else if Less(k, keys[0]) then [k] + keys
    else [keys[0]] + InsertKey(k, keys[1..])
  }

  /** `ORDER BY updated_at, id` over the rows below n that are past the cursor. */
  function Backlog(rows: seq<Row>, c: Cursor, n: nat): seq<Key>
    requires n <= |rows|
  {
    if n == 0 then []
    else
      var before := Backlog(rows, c, n - 1);
      if Behind(rows, c, n - 1) then InsertKey(KeyOf(rows, n - 1), before) else before
  }

  ghost predicate Ordered(keys: seq<Key>) {
    forall i, j | 0 <= i < j < |keys| :: Less(keys[i], keys[j])
  }

  lemma {:induction false} InsertKeyProperties(k: Key, keys: seq<Key>)
    requires Ordered(keys) && k !in keys
    ensures Ordered(InsertKey(k, keys))
    ensures forall x :: x in InsertKey(k, keys) <==> x == k || x in keys
  {
    if keys != [] {
      assert keys == [keys[0]] + keys[1..];
      if !Less(k, keys[0]) {
        InsertKeyProperties(k, keys[1..]);
        var rest := InsertKey(k, keys[1..]);
        forall i | 0 <= i < |rest| ensures Less(keys[0], rest[i]) {
          assert rest[i] in rest;
          assert rest[i] != k ==> rest[i] in keys[1..];
        }
      }
    }
  }

  /** The read returns exactly the rows past the cursor, each once, in cursor order. */
  lemma {:induction false} BacklogIsExact(rows: seq<Row>, c: Cursor, n: nat)
    requires n <= |rows|
    ensures Ordered(Backlog(rows, c, n))
    ensures forall k :: k in Backlog(rows, c, n) <==> k.id < n && Behind(rows, c, k.id) && k == KeyOf(rows, k.id)
  {
    if n > 0 {
      BacklogIsExact(rows, c, n - 1);
      if Behind(rows, c, n - 1) {
        InsertKeyProperties(KeyOf(rows, n - 1), Backlog(rows, c, n - 1));
      }
    }
  }

  // ----- The store's operations

  function Touched(rows: seq<Row>, ids: set<nat>, now: nat): (r: seq<Row>)
    ensures |r| == |rows|
    ensures forall i | 0 <= i < |rows| :: r[i] == if i in ids then rows[i].(updatedAt := now) else rows[i]
  {
    seq(|rows|, i requires 0 <= i < |rows| => if i in ids then rows[i].(updatedAt := now) else rows[i])
  }

  function Fresh(inferred: seq<bool>, now: nat): (r: seq<Row>)
    ensures |r| == |inferred| && forall i | 0 <= i < |r| :: r[i] == Row(inferred[i], now)
  {
    seq(|inferred|, i requires 0 <= i < |inferred| => Row(inferred[i], now))
  }

  /** One transaction: every row it adds or changes carries its one stamp. */
  function WriteRows(s: Store, added: seq<bool>, touched: set<nat>): Store {
    s.(clock := s.clock + 1, rows := Touched(s.rows, touched, s.clock + 1) + Fresh(added, s.clock + 1))
  }

  /** The latest (stamp, id) among the audited rows as they are at commit. */
  function NextCursor(rows: seq<Row>, chunk: seq<Key>, c: Cursor): Cursor {
    if chunk == [] then c
    else
      var rest, last := NextCursor(rows, chunk[..|chunk| - 1], c), chunk[|chunk| - 1];
      if last.id < |rows| && (|chunk| == 1 || Past(rest, KeyOf(rows, last.id))) then At(KeyOf(rows, last.id)) else rest
  }

  /** A Memory whose content was cut is audited only in part. */
  function Complete(a: Attempt): seq<Key> {
    if a.whole || a.chunk == [] then a.chunk else a.chunk[..|a.chunk| - 1]
  }

  function CommitAttempt(s: Store, attempt: nat): Store
    requires attempt in s.inFlight
  {
    var a, done := s.inFlight[attempt], s.(inFlight := s.inFlight - {attempt});
    if a.root >= |s.cursors| || s.cursors[a.root] != a.expected then done
    else
      done.(cursors := s.cursors[a.root := NextCursor(s.rows, a.chunk, a.expected)],
            audited := s.audited + set k | k in Complete(a) :: Audit(a.root, k))
  }

  ghost predicate Enabled(s: Store, e: Event) {
    match e
    case Write(_, _) => true
    case Read(attempt, root, size, _) =>
      attempt !in s.inFlight && root < |s.cursors| && 0 < size <= |Backlog(s.rows, s.cursors[root], |s.rows|)|
    case Commit(attempt) => attempt in s.inFlight
  }

  function Step(s: Store, e: Event): Store
    requires e.Commit? ==> e.attempt in s.inFlight
    requires e.Read? ==> e.root < |s.cursors| && e.size <= |Backlog(s.rows, s.cursors[e.root], |s.rows|)|
  {
    match e
    case Write(added, touched) => WriteRows(s, added, touched)
    case Read(attempt, root, size, whole) =>
      var chunk := Backlog(s.rows, s.cursors[root], |s.rows|)[..size];
      s.(inFlight := s.inFlight[attempt := Attempt(root, s.cursors[root], chunk, whole, s.clock)])
    case Commit(attempt) => CommitAttempt(s, attempt)
  }

  // ----- The claim and the invariant behind it

  /** Everything at or before the root's cursor was audited under that root, in its current version. */
  ghost predicate NothingSkipped(s: Store, root: nat)
    requires root < |s.cursors|
  {
    forall id | 0 <= id < |s.rows| && !s.rows[id].inferred && !Past(s.cursors[root], KeyOf(s.rows, id)) ::
      Audit(root, KeyOf(s.rows, id)) in s.audited
  }

  ghost predicate AllAudited(s: Store) {
    forall root: nat | root < |s.cursors| :: NothingSkipped(s, root)
  }

  /** A row of the chunk is as it was read, or was changed by a later transaction. */
  ghost predicate ChunkSound(s: Store, a: Attempt) {
    forall i | 0 <= i < |a.chunk| ::
      && a.chunk[i].id < |s.rows| && a.chunk[i].stamp <= a.readAt && Past(a.expected, a.chunk[i])
      && !s.rows[a.chunk[i].id].inferred
      && (s.rows[a.chunk[i].id].updatedAt == a.chunk[i].stamp || s.rows[a.chunk[i].id].updatedAt > a.readAt)
  }

  /** No unchanged row was passed over by the prefix that was read. */
  ghost predicate ChunkIsPrefix(s: Store, a: Attempt)
    requires a.chunk != []
  {
    forall id | 0 <= id < |s.rows| && !s.rows[id].inferred && s.rows[id].updatedAt <= a.readAt
                && Past(a.expected, KeyOf(s.rows, id)) && !Less(a.chunk[|a.chunk| - 1], KeyOf(s.rows, id)) ::
      KeyOf(s.rows, id) in a.chunk
  }

  ghost predicate AttemptSound(s: Store, a: Attempt) {
    && a.root < |s.cursors| && a.readAt <= s.clock
    && a.chunk != [] && Ordered(a.chunk)
    && ChunkSound(s, a) && ChunkIsPrefix(s, a)
    && (s.cursors[a.root] == a.expected || (s.cursors[a.root].At? && Past(a.expected, s.cursors[a.root].key)))
  }

  ghost predicate Sound(s: Store) {
    && (forall id | 0 <= id < |s.rows| :: s.rows[id].updatedAt <= s.clock)
    && (forall root | 0 <= root < |s.cursors| && s.cursors[root].At? :: s.cursors[root].key.stamp <= s.clock)
    && (forall a | a in s.inFlight :: AttemptSound(s, s.inFlight[a]))
    && (forall x | x in s.audited :: x.root < |s.cursors| && !Past(s.cursors[x.root], x.version))
  }

  // ----- One step at a time

  lemma WriteKeeps(s: Store, added: seq<bool>, touched: set<nat>)
    requires Sound(s)
    ensures Sound(WriteRows(s, added, touched))
    ensures AllAudited(s) ==> AllAudited(WriteRows(s, added, touched))
  {
    var s' := WriteRows(s, added, touched);
    forall f | f in s'.inFlight ensures AttemptSound(s', s'.inFlight[f]) {
      assert AttemptSound(s, s.inFlight[f]);
      WriteKeepsAttempt(s, added, touched, s.inFlight[f]);
    }
    if AllAudited(s) {
      forall root: nat | root < |s'.cursors| ensures NothingSkipped(s', root) {
        assert NothingSkipped(s, root);
        forall id | 0 <= id < |s'.rows| && !s'.rows[id].inferred && !Past(s'.cursors[root], KeyOf(s'.rows, id))
          ensures Audit(root, KeyOf(s'.rows, id)) in s'.audited
        {
          assert s'.rows[id].updatedAt <= s.clock;
          assert id < |s.rows| && s'.rows[id] == s.rows[id];
        }
      }
    }
  }

  lemma WriteKeepsAttempt(s: Store, added: seq<bool>, touched: set<nat>, a: Attempt)
    requires Sound(s) && AttemptSound(s, a)
    ensures AttemptSound(WriteRows(s, added, touched), a)
  {
    var s' := WriteRows(s, added, touched);
    assert forall id | 0 <= id < |s'.rows| && s'.rows[id].updatedAt <= s.clock ::
             id < |s.rows| && s'.rows[id] == s.rows[id];
  }

  lemma PrefixHolds(keys: seq<Key>, size: nat, k: Key)
    requires Ordered(keys) && 0 < size <= |keys| && k in keys && !Less(keys[size - 1], k)
    ensures k in keys[..size]
  {
    var i :| 0 <= i < |keys| && keys[i] == k;
    if i < size { assert keys[..size][i] == k; }
  }

  lemma PrefixSound(s: Store, a: Attempt, backlog: seq<Key>)
    requires a.root < |s.cursors| && a.expected == s.cursors[a.root] && a.readAt == s.clock
    requires backlog == Backlog(s.rows, a.expected, |s.rows|)
    requires a.chunk != [] && a.chunk <= backlog && Sound(s)
    ensures AttemptSound(s, a)
  {
    BacklogIsExact(s.rows, a.expected, |s.rows|);
    forall i | 0 <= i < |a.chunk| ensures a.chunk[i] in backlog { assert a.chunk[i] == backlog[i]; }
    forall id | 0 <= id < |s.rows| && Behind(s.rows, a.expected, id) && !Less(a.chunk[|a.chunk| - 1], KeyOf(s.rows, id))
      ensures KeyOf(s.rows, id) in a.chunk
    {
      assert KeyOf(s.rows, id) in backlog && a.chunk == backlog[..|a.chunk|];
      PrefixHolds(backlog, |a.chunk|, KeyOf(s.rows, id));
    }
  }

  lemma ReadKeeps(s: Store, attempt: nat, root: nat, size: nat, whole: bool)
    requires Sound(s) && Enabled(s, Read(attempt, root, size, whole))
    ensures Sound(Step(s, Read(attempt, root, size, whole)))
  {
    var s' := Step(s, Read(attempt, root, size, whole));
    PrefixSound(s, s'.inFlight[attempt], Backlog(s.rows, s.cursors[root], |s.rows|));
    forall f | f in s'.inFlight ensures AttemptSound(s', s'.inFlight[f]) {
      assert AttemptSound(s, s'.inFlight[f]);
    }
  }

  /** The new cursor is the greatest current key of the chunk, so it is past the old one. */
  lemma {:induction false} NextCursorIsGreatest(rows: seq<Row>, chunk: seq<Key>, c: Cursor)
    requires chunk != [] && forall i | 0 <= i < |chunk| :: chunk[i].id < |rows|
    ensures var next := NextCursor(rows, chunk, c);
            && next.At?
            && (exists i :: 0 <= i < |chunk| && next.key == KeyOf(rows, chunk[i].id))
            && (forall i | 0 <= i < |chunk| :: !Past(next, KeyOf(rows, chunk[i].id)))
  {
    var init, last := chunk[..|chunk| - 1], chunk[|chunk| - 1];
    if |chunk| > 1 {
      NextCursorIsGreatest(rows, init, c);
      var i :| 0 <= i < |init| && NextCursor(rows, init, c).key == KeyOf(rows, init[i].id);
      assert chunk[i] == init[i];
      forall j | 0 <= j < |chunk| ensures !Past(NextCursor(rows, chunk, c), KeyOf(rows, chunk[j].id)) {
        if j < |init| { assert init[j] == chunk[j]; }
      }
    }
  }

  /** The audited rows are as they were when they were read. */
  ghost predicate Unchanged(s: Store, a: Attempt) {
    forall i | 0 <= i < |a.chunk| :: a.chunk[i].id < |s.rows| && KeyOf(s.rows, a.chunk[i].id) == a.chunk[i]
  }

  lemma GreatestIsLast(keys: seq<Key>, i: nat)
    requires Ordered(keys) && i < |keys| && !Less(keys[i], keys[|keys| - 1])
    ensures i == |keys| - 1
  {
  }

  lemma PassingCursor(s: Store, a: Attempt)
    requires Sound(s) && AttemptSound(s, a)
    ensures var next := NextCursor(s.rows, a.chunk, a.expected);
            && next.At? && next.key.stamp <= s.clock
            && (forall i | 0 <= i < |a.chunk| :: !Past(next, a.chunk[i]))
            && Past(a.expected, next.key)
            && (Unchanged(s, a) ==> next.key == a.chunk[|a.chunk| - 1])
  {
    NextCursorIsGreatest(s.rows, a.chunk, a.expected);
    var next := NextCursor(s.rows, a.chunk, a.expected);
    forall i | 0 <= i < |a.chunk| ensures !Past(next, a.chunk[i]) {
      assert !Past(next, KeyOf(s.rows, a.chunk[i].id));
    }
    assert Past(a.expected, a.chunk[0]) && !Past(next, a.chunk[0]);
    if Unchanged(s, a) {
      var i :| 0 <= i < |a.chunk| && next.key == KeyOf(s.rows, a.chunk[i].id);
      GreatestIsLast(a.chunk, i);
    }
  }

  /** Another attempt stays sound when its root's cursor only moves forward. */
  lemma AdvancingKeepsAttempt(s: Store, a: Attempt, s': Store)
    requires AttemptSound(s, a) && s'.rows == s.rows && s'.clock == s.clock && |s'.cursors| == |s.cursors|
    requires s'.cursors[a.root] == s.cursors[a.root]
             || (s'.cursors[a.root].At? && Past(s.cursors[a.root], s'.cursors[a.root].key))
    ensures AttemptSound(s', a)
  {
  }

  lemma CommitKeepsSound(s: Store, attempt: nat)
    requires Sound(s) && attempt in s.inFlight
    ensures Sound(CommitAttempt(s, attempt))
  {
    var a, s' := s.inFlight[attempt], CommitAttempt(s, attempt);
    assert AttemptSound(s, a);
    PassingCursor(s, a);
    forall f | f in s'.inFlight ensures AttemptSound(s', s'.inFlight[f]) {
      AdvancingKeepsAttempt(s, s.inFlight[f], s');
    }
    forall x | x in s'.audited ensures !Past(s'.cursors[x.root], x.version) {
      if x !in s.audited {
        assert x.version in a.chunk;
      }
    }
  }

  /** The request held whole Memories, and none of them changed before the commit. */
  ghost predicate CleanCommit(s: Store, a: Attempt) {
    a.whole && Unchanged(s, a)
  }

  /** A commit that passes skips nothing exactly when its chunk was whole and is unchanged. */
  lemma CommitSkipsNothing(s: Store, attempt: nat)
    requires Sound(s) && AllAudited(s) && attempt in s.inFlight
    requires s.inFlight[attempt].root < |s.cursors|
    requires s.cursors[s.inFlight[attempt].root] == s.inFlight[attempt].expected
    ensures NothingSkipped(CommitAttempt(s, attempt), s.inFlight[attempt].root) <==> CleanCommit(s, s.inFlight[attempt])
  {
    var a := s.inFlight[attempt];
    assert AttemptSound(s, a) && NothingSkipped(s, a.root);
    PassingCursor(s, a);
    if CleanCommit(s, a) {
      CleanCommitSkipsNothing(s, attempt);
    } else {
      var i := DirtyRow(s, a);
      var s' := CommitAttempt(s, attempt);
      var now := KeyOf(s.rows, a.chunk[i].id);
      NextCursorIsGreatest(s.rows, a.chunk, a.expected);
      assert !Past(s'.cursors[a.root], now);
      assert Audit(a.root, now) !in s.audited;
      assert now !in Complete(a);
    }
  }

  /** A changed row, or the last one if it was cut: its current version was not audited. */
  lemma DirtyRow(s: Store, a: Attempt) returns (i: nat)
    requires AttemptSound(s, a) && !CleanCommit(s, a)
    ensures i < |a.chunk| && KeyOf(s.rows, a.chunk[i].id) !in Complete(a)
    ensures Past(a.expected, KeyOf(s.rows, a.chunk[i].id))
  {
    if Unchanged(s, a) {
      i := |a.chunk| - 1;
      var last := a.chunk[i];
      forall j | 0 <= j < i ensures a.chunk[..i][j] != last { assert Less(a.chunk[j], last); }
    } else {
      i :| 0 <= i < |a.chunk| && KeyOf(s.rows, a.chunk[i].id) != a.chunk[i];
      var now := KeyOf(s.rows, a.chunk[i].id);
      assert now.stamp > a.readAt;
      assert forall j | 0 <= j < |a.chunk| :: a.chunk[j] != now;
    }
  }

  lemma CleanCommitSkipsNothing(s: Store, attempt: nat)
    requires Sound(s) && attempt in s.inFlight && CleanCommit(s, s.inFlight[attempt])
    requires s.inFlight[attempt].root < |s.cursors|
    requires s.cursors[s.inFlight[attempt].root] == s.inFlight[attempt].expected
    requires NothingSkipped(s, s.inFlight[attempt].root)
    ensures NothingSkipped(CommitAttempt(s, attempt), s.inFlight[attempt].root)
  {
    var a, s' := s.inFlight[attempt], CommitAttempt(s, attempt);
    assert AttemptSound(s, a);
    PassingCursor(s, a);
    forall id | 0 <= id < |s'.rows| && !s'.rows[id].inferred && !Past(s'.cursors[a.root], KeyOf(s'.rows, id))
      ensures Audit(a.root, KeyOf(s'.rows, id)) in s'.audited
    {
      var last := a.chunk[|a.chunk| - 1];
      if Past(a.expected, KeyOf(s.rows, id)) {
        assert !Less(last, KeyOf(s.rows, id)) && last.stamp <= a.readAt;
        assert KeyOf(s.rows, id) in a.chunk;
      }
    }
  }

  lemma CommitKeepsAudited(s: Store, attempt: nat)
    requires Sound(s) && AllAudited(s) && attempt in s.inFlight
    requires CleanCommit(s, s.inFlight[attempt])
    ensures AllAudited(CommitAttempt(s, attempt))
  {
    var a, s' := s.inFlight[attempt], CommitAttempt(s, attempt);
    assert AttemptSound(s, a);
    forall root: nat | root < |s'.cursors| ensures NothingSkipped(s', root) {
      assert NothingSkipped(s, root);
      if root == a.root && s.cursors[root] == a.expected {
        CleanCommitSkipsNothing(s, attempt);
      }
    }
  }

  /** A lost compare-and-set commits nothing. */
  lemma LostCommitChangesNothing(s: Store, attempt: nat)
    requires Sound(s) && attempt in s.inFlight && s.cursors[s.inFlight[attempt].root] != s.inFlight[attempt].expected
    ensures CommitAttempt(s, attempt) == s.(inFlight := s.inFlight - {attempt})
  {
  }

  // ----- Runs

  ghost predicate Legal(s: Store, events: seq<Event>)
    decreases |events|
  {
    events == [] || (Enabled(s, events[0]) && Legal(Step(s, events[0]), events[1..]))
  }

  ghost function Run(s: Store, events: seq<Event>): Store
    requires Legal(s, events)
    decreases |events|
  {
    if events == [] then s else Run(Step(s, events[0]), events[1..])
  }

  ghost predicate CleanRun(s: Store, events: seq<Event>)
    requires Legal(s, events)
    decreases |events|
  {
    events == [] ||
    ((events[0].Commit? ==> CleanCommit(s, s.inFlight[events[0].attempt])) && CleanRun(Step(s, events[0]), events[1..]))
  }

  lemma StepKeepsSound(s: Store, e: Event)
    requires Sound(s) && Enabled(s, e)
    ensures Sound(Step(s, e))
    ensures AllAudited(s) && (e.Commit? ==> CleanCommit(s, s.inFlight[e.attempt])) ==> AllAudited(Step(s, e))
  {
    match e
    case Write(added, touched) => WriteKeeps(s, added, touched);
    case Read(attempt, root, size, whole) =>
      ReadKeeps(s, attempt, root, size, whole);
      if AllAudited(s) {
        forall r: nat | r < |s.cursors| ensures NothingSkipped(Step(s, e), r) { assert NothingSkipped(s, r); }
      }
    case Commit(attempt) =>
      CommitKeepsSound(s, attempt);
      if AllAudited(s) && CleanCommit(s, s.inFlight[attempt]) { CommitKeepsAudited(s, attempt); }
  }

  /** Whatever writers do meanwhile, no Memory at or before a root's cursor has gone unaudited. */
  lemma {:induction false} RunSkipsNothing(s: Store, events: seq<Event>)
    requires Sound(s) && Legal(s, events)
    ensures Sound(Run(s, events))
    ensures AllAudited(s) && CleanRun(s, events) ==> AllAudited(Run(s, events))
    decreases |events|
  {
    if events != [] {
      StepKeepsSound(s, events[0]);
      RunSkipsNothing(Step(s, events[0]), events[1..]);
    }
  }

  /** A space with its roots seeded and no Memory yet. */
  function Seeded(roots: nat): Store {
    Store(0, [], seq(roots, _ => Origin), map[], {})
  }

  lemma SeededStoreIsSound(roots: nat)
    ensures Sound(Seeded(roots)) && AllAudited(Seeded(roots))
  {
  }

  /** In every clean run of a seeded space nothing is skipped. */
  lemma SeededRunsSkipNothing(roots: nat, events: seq<Event>)
    requires Legal(Seeded(roots), events) && CleanRun(Seeded(roots), events)
    ensures AllAudited(Run(Seeded(roots), events))
  {
    SeededStoreIsSound(roots);
    RunSkipsNothing(Seeded(roots), events);
  }

  lemma RunCons(s: Store, e: Event, rest: seq<Event>)
    requires Enabled(s, e) && Legal(Step(s, e), rest)
    ensures Legal(s, [e] + rest) && Run(s, [e] + rest) == Run(Step(s, e), rest)
  {
    assert ([e] + rest)[1..] == rest;
  }

  // ----- Two runs that are not clean

  /** Two Memories are written, and the first is rewritten while it is audited. */
  const REWRITE_RUN := [Write([false], {}), Write([false], {}), Read(0, 0, 1, true), Write([], {0}), Commit(0)]

  lemma RewriteRunStates() returns (read: Store)
    ensures read == Store(2, [Row(false, 1), Row(false, 2)], [Origin],
              map[0 := Attempt(0, Origin, [Key(1, 0)], true, 2)], {})
    ensures forall rest | Legal(read, rest) ::
              Legal(Seeded(1), REWRITE_RUN[..3] + rest) && Run(Seeded(1), REWRITE_RUN[..3] + rest) == Run(read, rest)
  {
    var s1 := Store(1, [Row(false, 1)], [Origin], map[], {});
    var s2 := s1.(clock := 2, rows := [Row(false, 1), Row(false, 2)]);
    assert Step(Seeded(1), REWRITE_RUN[0]) == s1 && Step(s1, REWRITE_RUN[1]) == s2;
    TwoRowBacklog(s2.rows);
    read := Step(s2, REWRITE_RUN[2]);
    forall rest | Legal(read, rest)
      ensures Legal(Seeded(1), REWRITE_RUN[..3] + rest) && Run(Seeded(1), REWRITE_RUN[..3] + rest) == Run(read, rest) {
      RunCons(s2, REWRITE_RUN[2], rest);
      RunCons(s1, REWRITE_RUN[1], [REWRITE_RUN[2]] + rest);
      RunCons(Seeded(1), REWRITE_RUN[0], [REWRITE_RUN[1]] + ([REWRITE_RUN[2]] + rest));
      assert REWRITE_RUN[..3] + rest == [REWRITE_RUN[0]] + ([REWRITE_RUN[1]] + ([REWRITE_RUN[2]] + rest));
    }
  }

  lemma TwoRowBacklog(rows: seq<Row>)
    requires rows == [Row(false, 1), Row(false, 2)]
    ensures Backlog(rows, Origin, 2) == [Key(1, 0), Key(2, 1)]
  {
    assert Backlog(rows, Origin, 1) == InsertKey(Key(1, 0), Backlog(rows, Origin, 0)) == [Key(1, 0)];
    assert InsertKey(Key(2, 1), [Key(1, 0)]) == [Key(1, 0)] + InsertKey(Key(2, 1), []);
  }

  /** The cursor jumps to the rewritten Memory's new stamp and passes over the second, which nobody has read. */
  lemma RewriteDuringAuditSkips()
    ensures Legal(Seeded(1), REWRITE_RUN)
    ensures var s := Run(Seeded(1), REWRITE_RUN);
            && s.cursors == [At(Key(3, 0))] && |s.rows| == 2
            && !Past(s.cursors[0], KeyOf(s.rows, 1)) && Audit(0, KeyOf(s.rows, 1)) !in s.audited
  {
    var read := RewriteRunStates();
    var rewritten := Step(read, REWRITE_RUN[3]);
    assert rewritten.rows == [Row(false, 3), Row(false, 2)];
    assert [Key(1, 0)][..0] == [];
    assert NextCursor(rewritten.rows, [Key(1, 0)], Origin) == At(Key(3, 0));
    var s := Step(rewritten, REWRITE_RUN[4]);
    RunCons(rewritten, REWRITE_RUN[4], []);
    RunCons(read, REWRITE_RUN[3], [REWRITE_RUN[4]]);
    assert REWRITE_RUN == REWRITE_RUN[..3] + ([REWRITE_RUN[3]] + [REWRITE_RUN[4]]);
    assert [REWRITE_RUN[4]] + [] == [REWRITE_RUN[4]];
  }

  /** One Memory, too long for a request: its beginning is audited, and the space is no longer stale. */
  const CUT_RUN := [Write([false], {}), Read(0, 0, 1, false), Commit(0)]

  lemma CutMemoryIsSkipped()
    ensures Legal(Seeded(1), CUT_RUN)
    ensures var s := Run(Seeded(1), CUT_RUN); !StaleSpace(s) && !AllAudited(s)
  {
    var s1 := Store(1, [Row(false, 1)], [Origin], map[], {});
    assert Step(Seeded(1), CUT_RUN[0]) == s1;
    assert Backlog(s1.rows, Origin, 1) == InsertKey(Key(1, 0), Backlog(s1.rows, Origin, 0)) == [Key(1, 0)];
    var read := s1.(inFlight := map[0 := Attempt(0, Origin, [Key(1, 0)], false, 1)]);
    assert [Key(1, 0)][..1] == [Key(1, 0)] && |s1.rows| == 1;
    assert Step(s1, CUT_RUN[1]) == read;
    assert [Key(1, 0)][..0] == [];
    assert NextCursor(read.rows, [Key(1, 0)], Origin) == At(Key(1, 0));
    var s := Step(read, CUT_RUN[2]);
    assert s.cursors == [At(Key(1, 0))] && s.audited == {};
    assert !NothingSkipped(s, 0);
    RunCons(read, CUT_RUN[2], []);
    RunCons(s1, CUT_RUN[1], [CUT_RUN[2]]);
    RunCons(Seeded(1), CUT_RUN[0], [CUT_RUN[1], CUT_RUN[2]]);
    assert [CUT_RUN[2]] + [] == [CUT_RUN[2]] && [CUT_RUN[1]] + [CUT_RUN[2]] == [CUT_RUN[1], CUT_RUN[2]];
    assert CUT_RUN == [CUT_RUN[0]] + [CUT_RUN[1], CUT_RUN[2]];
  }

  // ----- What a commit that passes does

  /** The commit moves its root's cursor alone, and audits what was read whole. */
  ghost predicate Advances(s: Store, s': Store, a: Attempt) {
    && a.root < |s.cursors| && |s'.cursors| == |s.cursors|
    && (forall root: nat | root < |s.cursors| && root != a.root :: s'.cursors[root] == s.cursors[root])
    && (a.chunk != [] && (forall i | 0 <= i < |a.chunk| :: a.chunk[i].id < |s.rows|) ==>
          LatestOf(s.rows, a.chunk, s'.cursors[a.root]))
    && (forall x :: x in s'.audited <==>
          x in s.audited || (x.root == a.root && x.version in if a.whole then a.chunk else AllButLast(a.chunk)))
  }

  function AllButLast(chunk: seq<Key>): seq<Key> {
    if chunk == [] then [] else chunk[..|chunk| - 1]
  }

  /** The cursor is at the latest row of the chunk, by the stamps the rows have now, and by id among equal ones. */
  ghost predicate LatestOf(rows: seq<Row>, chunk: seq<Key>, c: Cursor)
    requires forall i | 0 <= i < |chunk| :: chunk[i].id < |rows|
  {
    && c.At?
    && (exists i :: 0 <= i < |chunk| && chunk[i].id == c.key.id && rows[chunk[i].id].updatedAt == c.key.stamp)
    && forall i | 0 <= i < |chunk| ::
         || rows[chunk[i].id].updatedAt < c.key.stamp
         || (rows[chunk[i].id].updatedAt == c.key.stamp && chunk[i].id <= c.key.id)
  }

  lemma CommitAdvances(s: Store, attempt: nat)
    requires attempt in s.inFlight
    ensures var a := s.inFlight[attempt];
            a.root < |s.cursors| && s.cursors[a.root] == a.expected ==> Advances(s, CommitAttempt(s, attempt), a)
  {
    var a := s.inFlight[attempt];
    if a.chunk != [] && forall i | 0 <= i < |a.chunk| :: a.chunk[i].id < |s.rows| {
      NextCursorIsGreatest(s.rows, a.chunk, a.expected);
    }
  }

  // ----- The loop ends, exactly when the space is no longer stale

  ghost predicate StaleSpace(s: Store) {
    exists root, id :: 0 <= root < |s.cursors| && 0 <= id < |s.rows| && Behind(s.rows, s.cursors[root], id)
  }

  function TotalBacklog(rows: seq<Row>, cursors: seq<Cursor>): nat {
    if cursors == [] then 0
    else TotalBacklog(rows, cursors[..|cursors| - 1]) + |BacklogIds(rows, cursors[|cursors| - 1])|
  }

  lemma {:induction false} TotalBacklogUpdate(rows: seq<Row>, cursors: seq<Cursor>, root: nat, c: Cursor)
    requires root < |cursors|
    ensures TotalBacklog(rows, cursors[root := c]) + |BacklogIds(rows, cursors[root])| ==
            TotalBacklog(rows, cursors) + |BacklogIds(rows, c)|
  {
    var init, last := cursors[..|cursors| - 1], |cursors| - 1;
    if root == last {
      assert cursors[root := c][..last] == init;
    } else {
      assert cursors[root := c][..last] == init[root := c];
      TotalBacklogUpdate(rows, init, root, c);
    }
  }

  lemma SmallerBacklog(rows: seq<Row>, c: Cursor, later: Cursor, id: nat)
    requires later.At? && Past(c, later.key) && id < |rows| && Behind(rows, c, id) && !Behind(rows, later, id)
    ensures |BacklogIds(rows, later)| < |BacklogIds(rows, c)|
  {
    var before, after := BacklogIds(rows, c), BacklogIds(rows, later);
    assert id in before && id !in after;
    assert after <= before - {id};
    SubsetSize(after, before - {id});
  }

  lemma {:induction false} SubsetSize<T>(a: set<T>, b: set<T>)
    requires a <= b
    ensures |a| <= |b|
    decreases a
  {
    if a != {} {
      var x :| x in a;
      SubsetSize(a - {x}, b - {x});
    }
  }

  /** A commit of unchanged Memories takes at least the first off the backlog of its root, cut or not. */
  lemma CommitShrinks(s: Store, a: Attempt)
    requires Sound(s) && AttemptSound(s, a) && Unchanged(s, a) && s.cursors[a.root] == a.expected
    ensures var cursors := s.cursors[a.root := NextCursor(s.rows, a.chunk, a.expected)];
            TotalBacklog(s.rows, cursors) < TotalBacklog(s.rows, s.cursors)
  {
    PassingCursor(s, a);
    var next, first := NextCursor(s.rows, a.chunk, a.expected), a.chunk[0];
    assert KeyOf(s.rows, first.id) == first && Behind(s.rows, a.expected, first.id) && !Past(next, first);
    SmallerBacklog(s.rows, a.expected, next, first.id);
    TotalBacklogUpdate(s.rows, s.cursors, a.root, next);
  }

  lemma UntouchedIsUnchanged(s: Store, a: Attempt, backlog: seq<Key>)
    requires backlog == Backlog(s.rows, a.expected, |s.rows|) && a.chunk <= backlog
    ensures Unchanged(s, a)
  {
    BacklogIsExact(s.rows, a.expected, |s.rows|);
    forall i | 0 <= i < |a.chunk| ensures a.chunk[i] in backlog { assert a.chunk[i] == backlog[i]; }
  }

  lemma ReadIsUnchanged(s: Store, attempt: nat, root: nat, size: nat, whole: bool)
    requires Sound(s) && Enabled(s, Read(attempt, root, size, whole))
    ensures var read := Step(s, Read(attempt, root, size, whole));
            && Sound(read) && (AllAudited(s) ==> AllAudited(read))
            && AttemptSound(read, read.inFlight[attempt]) && Unchanged(read, read.inFlight[attempt])
            && read.inFlight - {attempt} == s.inFlight
  {
    var e := Read(attempt, root, size, whole);
    var read := Step(s, e);
    StepKeepsSound(s, e);
    UntouchedIsUnchanged(read, read.inFlight[attempt], Backlog(s.rows, s.cursors[root], |s.rows|));
  }

  /** With nobody else writing, an attempt commits and shrinks the summed backlog; an uncut one skips nothing. */
  lemma AttemptProgresses(s: Store, attempt: nat, root: nat, size: nat, whole: bool)
    requires Sound(s) && Enabled(s, Read(attempt, root, size, whole))
    ensures var s' := CommitAttempt(Step(s, Read(attempt, root, size, whole)), attempt);
            && Sound(s') && (AllAudited(s) && whole ==> AllAudited(s'))
            && s'.rows == s.rows && |s'.cursors| == |s.cursors| && s'.inFlight == s.inFlight
            && TotalBacklog(s'.rows, s'.cursors) < TotalBacklog(s.rows, s.cursors)
  {
    var read := Step(s, Read(attempt, root, size, whole));
    ReadIsUnchanged(s, attempt, root, size, whole);
    CommitKeepsSound(read, attempt);
    if AllAudited(s) && whole { CommitKeepsAudited(read, attempt); }
    CommitShrinks(read, read.inFlight[attempt]);
  }

  /** And its root's cursor goes to the last Memory it read. */
  lemma AttemptMoves(s: Store, attempt: nat, root: nat, size: nat, whole: bool)
    requires Sound(s) && Enabled(s, Read(attempt, root, size, whole))
    ensures var read := Step(s, Read(attempt, root, size, whole));
            CommitAttempt(read, attempt).cursors ==
            s.cursors[root := At(Backlog(s.rows, s.cursors[root], |s.rows|)[size - 1])]
  {
    var read := Step(s, Read(attempt, root, size, whole));
    ReadIsUnchanged(s, attempt, root, size, whole);
    PassingCursor(read, read.inFlight[attempt]);
  }

  lemma WhatWasAudited(backlog: seq<Key>, size: nat, whole: bool)
    requires 0 < size <= |backlog|
    ensures (if whole then backlog[..size] else AllButLast(backlog[..size])) ==
            backlog[..if whole then size else size - 1]
  {
    assert backlog[..size][..size - 1] == backlog[..size - 1];
  }

  // ----- The evidence of a backlog

  function MemoryItem(id: nat, contents: nat -> string): Item {
    Item(id, Some(contents(id)))
  }

  function MemoryItems(backlog: seq<Key>, contents: nat -> string): (items: seq<Item>)
    ensures |items| == |backlog| && forall i | 0 <= i < |backlog| :: items[i] == MemoryItem(backlog[i].id, contents)
  {
    seq(|backlog|, i requires 0 <= i < |backlog| => MemoryItem(backlog[i].id, contents))
  }

  lemma BacklogItemsDistinct(rows: seq<Row>, c: Cursor, backlog: seq<Key>, contents: nat -> string)
    requires backlog <= Backlog(rows, c, |rows|)
    ensures DistinctKeys(MemoryItems(backlog, contents))
  {
    var all := Backlog(rows, c, |rows|);
    BacklogIsExact(rows, c, |rows|);
    forall i, j | 0 <= i < j < |backlog| ensures backlog[i].id != backlog[j].id {
      assert all[i] == backlog[i] && all[j] == backlog[j] && all[i] in all && all[j] in all && Less(all[i], all[j]);
    }
  }

  /** Every Memory fits a request by itself, in every attempt. */
  ghost predicate MemoriesFitAlone(contents: nat -> string, fits: nat -> Fits) {
    forall attempt: nat, id: nat :: fits(attempt)([MemoryItem(id, contents)])
  }

  lemma ItemsFitAlone(backlog: seq<Key>, contents: nat -> string, fits: nat -> Fits, attempt: nat)
    requires MemoriesFitAlone(contents, fits)
    ensures EachFitsAlone(MemoryItems(backlog, contents), fits(attempt))
  {
    var items := MemoryItems(backlog, contents);
    forall item | item in items ensures fits(attempt)([item]) {
      var i :| 0 <= i < |items| && items[i] == item;
      assert fits(attempt)([MemoryItem(backlog[i].id, contents)]);
    }
  }

  // ----- The store object

  const LIMIT: nat := 400

  /** Exactly these versions are audited as well, under this root. */
  ghost predicate AddsAudits(audited: set<Audit>, audited': set<Audit>, root: nat, keys: seq<Key>) {
    forall x :: x in audited' <==> x in audited || (x.root == root && x.version in keys)
  }

  class CoverageStore {
    var clock: nat
    var rows: seq<Row>
    var cursors: seq<Cursor>
    var inFlight: map<nat, Attempt>
    ghost var audited: set<Audit>

    ghost function State(): Store
      reads this
    {
      Store(clock, rows, cursors, inFlight, audited)
    }

    constructor (roots: nat)
      ensures State() == Store(0, [], seq(roots, _ => Origin), map[], {})
    {
      clock, rows, inFlight, audited := 0, [], map[], {};
      cursors := seq(roots, _ => Origin);
    }

    /** The first root, in declared order, that is behind; nothing exactly when no root is. */
    method CoverageContext() returns (r: Option<nat>, backlog: seq<Key>)
      ensures r.None? <==> !StaleSpace(State())
      ensures r.Some? ==>
                && r.value < |cursors| && backlog != [] && |backlog| <= LIMIT
                && backlog <= Backlog(rows, cursors[r.value], |rows|)
                && (|backlog| == 400 || backlog == Backlog(rows, cursors[r.value], |rows|))
                && forall earlier | 0 <= earlier < r.value :: BacklogIds(rows, cursors[earlier]) == {}
    {
      for root := 0 to |cursors|
        invariant forall earlier | 0 <= earlier < root :: BacklogIds(rows, cursors[earlier]) == {}
      {
        var all := Backlog(rows, cursors[root], |rows|);
        BacklogIsExact(rows, cursors[root], |rows|);
        if all != [] {
          assert all[0] in all;
          assert Behind(rows, cursors[root], all[0].id);
          return Some(root), if |all| <= LIMIT then all else all[..LIMIT];
        }
        forall id | 0 <= id < |rows| ensures !Behind(rows, cursors[root], id) {
          assert KeyOf(rows, id) !in all;
        }
      }
      forall root, id | 0 <= root < |cursors| && 0 <= id < |rows| ensures !Behind(rows, cursors[root], id) {
        assert id !in BacklogIds(rows, cursors[root]);
      }
      return None, [];
    }

    /** Reads a root's prefix of the given size, to be audited and committed later. */
    method BeginAudit(attempt: nat, root: nat, chunk: seq<Key>, whole: bool)
      requires Enabled(State(), Read(attempt, root, |chunk|, whole)) && chunk <= Backlog(rows, cursors[root], |rows|)
      modifies this`inFlight
      ensures State() == Step(old(State()), Read(attempt, root, |chunk|, whole))
    {
      assert Backlog(rows, cursors[root], |rows|)[..|chunk|] == chunk;
      inFlight := inFlight[attempt := Attempt(root, cursors[root], chunk, whole, clock)];
    }

    /** Commits one root's audit, and that root alone, if its cursor is the one that was read. */
    method ApplyCoverageAudit(attempt: nat) returns (applied: bool)
      requires attempt in inFlight
      modifies this
      ensures State() == CommitAttempt(old(State()), attempt)
      ensures applied <==>
                old(inFlight[attempt].root < |cursors| && cursors[inFlight[attempt].root] == inFlight[attempt].expected)
      ensures inFlight == old(inFlight) - {attempt} && rows == old(rows) && clock == old(clock)
      ensures !applied ==> cursors == old(cursors) && audited == old(audited)
      ensures applied ==> Advances(old(State()), State(), old(inFlight[attempt]))
    {
      var a := inFlight[attempt];
      CommitAdvances(State(), attempt);
      inFlight := inFlight - {attempt};
      if a.root >= |cursors| || cursors[a.root] != a.expected {
        return false;
      }
      cursors := cursors[a.root := NextCursor(rows, a.chunk, a.expected)];
      audited := audited + set k | k in Complete(a) :: Audit(a.root, k);
      return true;
    }

    /** Audits what one request holds of a root's backlog, and commits it; a request that cannot be packed raises. */
    method AttemptAudit(attempt: nat, root: nat, backlog: seq<Key>, contents: nat -> string, fits: Fits)
      returns (error: Option<Error>, ghost request: seq<Item>, ghost size: nat, ghost whole: bool)
      requires Sound(State()) && attempt !in inFlight && root < |cursors|
      requires backlog != [] && backlog <= Backlog(rows, cursors[root], |rows|)
      modifies this
      ensures Sound(State()) && rows == old(rows) && |cursors| == |old(cursors)| && inFlight == old(inFlight)
      ensures error.Some? ==>
                State() == old(State()) && Unpackable(MemoryItems(backlog, contents), fits, error.value)
      ensures error.None? ==> TotalBacklog(rows, cursors) < TotalBacklog(old(rows), old(cursors))
      ensures error.None? ==>
                && IsRequest(MemoryItems(backlog, contents), fits, request, size)
                && (whole <==> Evidence(request) == Evidence(MemoryItems(backlog, contents)[..size]))
      ensures error.None? ==>
                && 0 < size <= |backlog| && cursors == old(cursors)[root := At(backlog[size - 1])]
                && AddsAudits(old(audited), audited, root, backlog[..if whole then size else size - 1])
      ensures EachFitsAlone(MemoryItems(backlog, contents), fits) ==>
                && error.None? && whole
                && (size == |backlog| || !fits(MemoryItems(backlog, contents)[..size + 1]))
      ensures EachFitsAlone(MemoryItems(backlog, contents), fits) && AllAudited(old(State())) ==> AllAudited(State())
    {
      var items := MemoryItems(backlog, contents);
      BacklogItemsDistinct(rows, cursors[root], backlog, contents);
      var chunk, read := AuditedChunk(items, fits);
      if chunk.Err? {
        return Some(chunk.error), [], 0, false;
      }
      request, size, whole := chunk.value, read, Evidence(chunk.value) == Evidence(items[..read]);
      AuditFirst(attempt, root, backlog, read, Evidence(chunk.value) == Evidence(items[..read]));
      error := None;
    }

    /** Reads the first `size` keys of the backlog that was listed and commits them, with nobody else writing. */
    method AuditFirst(attempt: nat, root: nat, backlog: seq<Key>, size: nat, whole: bool)
      requires Sound(State()) && attempt !in inFlight && root < |cursors| && 0 < size <= |backlog|
      requires backlog <= Backlog(rows, cursors[root], |rows|)
      modifies this
      ensures Sound(State()) && rows == old(rows) && |cursors| == |old(cursors)| && inFlight == old(inFlight)
      ensures TotalBacklog(rows, cursors) < TotalBacklog(old(rows), old(cursors))
      ensures whole && AllAudited(old(State())) ==> AllAudited(State())
      ensures cursors == old(cursors)[root := At(backlog[size - 1])]
      ensures AddsAudits(old(audited), audited, root, backlog[..if whole then size else size - 1])
    {
      WhatWasAudited(backlog, size, whole);
      AuditOne(attempt, root, backlog[..size], whole);
    }

    /** Reads a beginning of the root's backlog and commits it, with nobody else writing. */
    method AuditOne(attempt: nat, root: nat, chunk: seq<Key>, whole: bool)
      requires Sound(State()) && attempt !in inFlight && root < |cursors|
      requires chunk != [] && chunk <= Backlog(rows, cursors[root], |rows|)
      modifies this
      ensures Sound(State()) && rows == old(rows) && |cursors| == |old(cursors)| && inFlight == old(inFlight)
      ensures TotalBacklog(rows, cursors) < TotalBacklog(old(rows), old(cursors))
      ensures whole && AllAudited(old(State())) ==> AllAudited(State())
      ensures cursors == old(cursors)[root := At(chunk[|chunk| - 1])]
      ensures AddsAudits(old(audited), audited, root, if whole then chunk else AllButLast(chunk))
    {
      assert chunk == Backlog(rows, cursors[root], |rows|)[..|chunk|];
      AttemptProgresses(State(), attempt, root, |chunk|, whole);
      AttemptMoves(State(), attempt, root, |chunk|, whole);
      BeginAudit(attempt, root, chunk, whole);
      var applied := ApplyCoverageAudit(attempt);
    }

    /**
      The always-continue loop. Without other writers it ends: with the space no longer stale, or with an
      attempt that raises. Cut Memories do not keep it going; when none is cut, nothing is skipped.
     */
    method RunUntilCaughtUp(contents: nat -> string, fits: nat -> Fits) returns (error: Option<Error>)
      requires Sound(State()) && inFlight == map[]
      modifies this
      ensures Sound(State()) && rows == old(rows) && |cursors| == |old(cursors)|
      ensures error.None? <==> !StaleSpace(State())
      ensures MemoriesFitAlone(contents, fits) ==> error.None?
      ensures MemoriesFitAlone(contents, fits) && AllAudited(old(State())) ==> AllAudited(State())
    {
      var attempt: nat := 0;
      var root: Option<nat>, backlog: seq<Key> := CoverageContext();
      while root.Some?
        invariant Sound(State()) && inFlight == map[]
        invariant rows == old(rows) && |cursors| == |old(cursors)|
        invariant MemoriesFitAlone(contents, fits) && AllAudited(old(State())) ==> AllAudited(State())
        invariant root.None? <==> !StaleSpace(State())
        invariant root.Some? ==>
                    root.value < |cursors| && backlog != [] && backlog <= Backlog(rows, cursors[root.value], |rows|)
        decreases TotalBacklog(rows, cursors)
      {
        if MemoriesFitAlone(contents, fits) { ItemsFitAlone(backlog, contents, fits, attempt); }
        ghost var request, size, whole;
        error, request, size, whole := AttemptAudit(attempt, root.value, backlog, contents, fits(attempt));
        if error.Some? {
          return;
        }
        attempt := attempt + 1;
        root, backlog := CoverageContext();
      }
      return None;
    }
  }
}

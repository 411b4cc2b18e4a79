/**
  Numbered migrations of a database that keeps a history of what was applied to it.

  A schema is any value; of its shape only what detection looks at is named. A run may stop after any
  number of committed transactions, because a transaction fails or the process dies.
 */
module Migrations {
  import opened Wrappers

  datatype Shape = NoTables | LegacyShape | CurrentShape | UnknownShape

  datatype Schema = Schema(shape: Shape, content: nat)

  /** Three bookkeeping markers; a real checksum determines the version and description it was taken of. */
  datatype Checksum =
    | LegacyBaseline
    | FreshCreate
    | AdoptedWithoutHistory
    | Digest(version: int, description: string)
    | Unrecognized(text: string)

  datatype Row = Row(version: int, checksum: Checksum)

  /** An upgrade may fail on a schema it does not fit. */
  datatype Migration = Migration(description: string, upgrade: Schema -> Option<Schema>)

  /** The contiguous table: the first entry upgrades to version 2. */
  datatype Program = Program(migrations: seq<Migration>)

  datatype Database = Database(schema: Schema, history: Option<seq<Row>>)

  datatype Error =
    | EmptyHistory | Gap | MisplacedMarker | UnknownChecksum | NewerDatabase
    | Unregistered | UpgradeFailed | UnknownDatabase

  datatype Outcome = Done | Refused(error: Error) | Interrupted

  function Current(p: Program): int {
    |p.migrations| + 1
  }

  predicate Registered(p: Program, version: int) {
    2 <= version <= Current(p)
  }

  function MigrationTo(p: Program, version: int): Migration
    requires Registered(p, version)
  {
    p.migrations[version - 2]
  }

  function RowFor(p: Program, version: int): Row
    requires Registered(p, version)
  {
    Row(version, Digest(version, MigrationTo(p, version).description))
  }

  predicate IsMarker(checksum: Checksum) {
    checksum.LegacyBaseline? || checksum.FreshCreate? || checksum.AdoptedWithoutHistory?
  }

  // ----- Trusting a history

  /** Consecutive versions, a marker at most first, known checksums, and nothing newer than the program. */
  ghost predicate Trusted(p: Program, history: seq<Row>) {
    && history != []
    && (forall i | 0 <= i < |history| :: history[i].version == history[0].version + i)
    && (forall i | 0 <= i < |history| ::
          (i == 0 && IsMarker(history[i].checksum))
          || (Registered(p, history[i].version) && history[i] == RowFor(p, history[i].version)))
    && history[|history| - 1].version <= Current(p)
  }

  function Highest(history: seq<Row>): int
    requires history != []
  {
    history[|history| - 1].version
  }

  // ----- A run

  /** One version: the upgrade and its history row commit together. */
  function ApplyOne(p: Program, db: Database, version: int): Option<Database>
    requires Registered(p, version) && db.history.Some?
  {
    match MigrationTo(p, version).upgrade(db.schema)
    case None => None
    case Some(schema) => Some(Database(schema, Some(db.history.value + [RowFor(p, version)])))
  }

  /** `budget` is how many transactions commit before the run is cut short. */
  function ApplyPending(p: Program, db: Database, after: int, budget: nat): (r: (Database, Outcome))
    requires db.history.Some?
    ensures r.0.history.Some?
    decreases Current(p) - after
  {
    if after >= Current(p) then (db, Done)
    else if !Registered(p, after + 1) then (db, Refused(Unregistered))
    else if budget == 0 then (db, Interrupted)
    else
      match ApplyOne(p, db, after + 1)
      case None => (db, Refused(UpgradeFailed))
      case Some(next) => ApplyPending(p, next, after + 1, budget - 1)
  }

  function Stamped(db: Database, version: int, marker: Checksum): Database {
    db.(history := Some([Row(version, marker)]))
  }

  /** A legacy database is stamped and upgraded all the way in one transaction. */
  function FromLegacy(p: Program, db: Database): (Database, Outcome) {
    var (upgraded, outcome) := ApplyPending(p, Stamped(db, 1, LegacyBaseline), 1, |p.migrations|);
    if outcome.Done? then (upgraded, Done) else (db, outcome)
  }

  ghost function Migrate(p: Program, db: Database, budget: nat): (Database, Outcome) {
    match db.history
    case Some(history) =>
      if !Trusted(p, history) then (db, Refused(WhyNot(p, history)))
      else ApplyPending(p, db, Highest(history), budget)
    case None =>
      match db.schema.shape
      case UnknownShape => (db, Refused(UnknownDatabase))
      case LegacyShape => if budget == 0 then (db, Interrupted) else FromLegacy(p, db)
      case NoTables => if budget == 0 then (db, Interrupted) else (Stamped(db, Current(p), FreshCreate), Done)
      case CurrentShape =>
        if budget == 0 then (db, Interrupted) else (Stamped(db, Current(p), AdoptedWithoutHistory), Done)
  }

  /** The first reason the checks give, in their order. */
  ghost function WhyNot(p: Program, history: seq<Row>): Error {
    if history == [] then EmptyHistory
    else if exists i :: 0 <= i < |history| && history[i].version != history[0].version + i then Gap
    else FirstBadRow(p, history, 0)
  }

  function FirstBadRow(p: Program, history: seq<Row>, i: nat): Error
    decreases |history| - i
  {
    if i >= |history| then NewerDatabase
    else if IsMarker(history[i].checksum) then (if i != 0 then MisplacedMarker else FirstBadRow(p, history, i + 1))
    else if !Registered(p, history[i].version) || history[i] != RowFor(p, history[i].version) then UnknownChecksum
    else FirstBadRow(p, history, i + 1)
  }

  /** As many transactions as any run can need. */
  function Unlimited(p: Program): nat {
    |p.migrations| + 1
  }

  ghost function Uninterrupted(p: Program, db: Database): (Database, Outcome) {
    Migrate(p, db, Unlimited(p))
  }

  // ----- Every state on the way can be trusted

  lemma OneMoreIsTrusted(p: Program, history: seq<Row>)
    requires Trusted(p, history) && Registered(p, Highest(history) + 1)
    ensures Trusted(p, history + [RowFor(p, Highest(history) + 1)])
  {
  }

  lemma {:induction false} PendingIsTrusted(p: Program, db: Database, budget: nat)
    requires db.history.Some? && Trusted(p, db.history.value)
    ensures var (db', outcome) := ApplyPending(p, db, Highest(db.history.value), budget);
            && db'.history.Some? && Trusted(p, db'.history.value)
            && (outcome.Done? ==> Highest(db'.history.value) == Current(p))
    decreases Current(p) - Highest(db.history.value)
  {
    var history := db.history.value;
    var after := Highest(history);
    if after < Current(p) && Registered(p, after + 1) && budget > 0 {
      var next := ApplyOne(p, db, after + 1);
      if next.Some? {
        OneMoreIsTrusted(p, history);
        PendingIsTrusted(p, next.value, budget - 1);
      }
    }
  }

  /** Wherever a run stops, a history that is there can be trusted, unless the database was refused as it came. */
  lemma EveryStopIsTrusted(p: Program, db: Database, budget: nat)
    ensures var (db', outcome) := Migrate(p, db, budget);
            && (db'.history.Some? ==> Trusted(p, db'.history.value) || (db' == db && outcome.Refused?))
            && (outcome.Done? ==> db'.history.Some? && Highest(db'.history.value) == Current(p))
  {
    if db.history.Some? {
      if Trusted(p, db.history.value) { PendingIsTrusted(p, db, budget); }
    } else if db.schema.shape.LegacyShape? {
      PendingIsTrusted(p, Stamped(db, 1, LegacyBaseline), |p.migrations|);
    }
  }

  // ----- Crashes do not change where a database ends up

  lemma {:induction false} PendingResumes(p: Program, db: Database, after: int, budget: nat, rest: nat)
    requires db.history.Some? && rest >= Current(p) - after
    ensures var (db', outcome) := ApplyPending(p, db, after, budget);
            && (outcome.Interrupted? ==>
                  db'.history.Some? && db.history.value <= db'.history.value
                  && |db'.history.value| == |db.history.value| + budget
                  && after + budget < Current(p)
                  && ApplyPending(p, db', after + budget, rest) == ApplyPending(p, db, after, rest))
            && (!outcome.Interrupted? ==> ApplyPending(p, db, after, rest) == (db', outcome))
    decreases Current(p) - after
  {
    if after < Current(p) && Registered(p, after + 1) && budget > 0 {
      var next := ApplyOne(p, db, after + 1);
      if next.Some? {
        PendingResumes(p, next.value, after + 1, budget - 1, rest - 1);
        PendingResumes(p, next.value, after + 1, budget - 1, rest);
        EnoughIsEnough(p, next.value, after + 1, rest - 1, rest);
      }
    }
  }

  lemma {:induction false} EnoughIsEnough(p: Program, db: Database, after: int, a: nat, b: nat)
    requires db.history.Some? && a >= Current(p) - after && b >= Current(p) - after
    ensures ApplyPending(p, db, after, a) == ApplyPending(p, db, after, b)
    decreases Current(p) - after
  {
    if after < Current(p) && Registered(p, after + 1) {
      var next := ApplyOne(p, db, after + 1);
      if next.Some? { EnoughIsEnough(p, next.value, after + 1, a - 1, b - 1); }
    }
  }

  /** A run cut short anywhere, then one that is not, ends like a single run that is not. */
  lemma RunResumes(p: Program, db: Database, budget: nat)
    ensures Uninterrupted(p, Migrate(p, db, budget).0) == Uninterrupted(p, db)
  {
    match db.history
    case Some(history) =>
      if Trusted(p, history) && Highest(history) >= 0 { StampedRunResumes(p, db, budget); }
    case None =>
      if db.schema.shape.LegacyShape? {
        PendingIsTrusted(p, Stamped(db, 1, LegacyBaseline), |p.migrations|);
      }
  }

  lemma StampedRunResumes(p: Program, db: Database, budget: nat)
    requires db.history.Some? && Trusted(p, db.history.value) && Highest(db.history.value) >= 0
    ensures Uninterrupted(p, Migrate(p, db, budget).0) == Uninterrupted(p, db)
  {
    var history := db.history.value;
    var after := Highest(history);
    var (db', outcome) := ApplyPending(p, db, after, budget);
    PendingIsTrusted(p, db, budget);
    PendingResumes(p, db, after, budget, Unlimited(p));
    match outcome
    case Interrupted => assert db'.history.value[0] == history[0];
    case Done =>
    case Refused(_) => RefusalRepeats(p, db, after, budget);
  }

  /** Where an upgrade fails, it fails again. */
  lemma {:induction false} RefusalRepeats(p: Program, db: Database, after: int, budget: nat)
    requires db.history.Some? && Trusted(p, db.history.value) && after == Highest(db.history.value)
    requires ApplyPending(p, db, after, budget).1.Refused?
    ensures var (db', outcome) := ApplyPending(p, db, after, budget);
            db'.history.Some? && Trusted(p, db'.history.value)
            && ApplyPending(p, db', Highest(db'.history.value), Unlimited(p)) == (db', outcome)
    decreases Current(p) - after
  {
    if Registered(p, after + 1) && budget > 0 {
      var next := ApplyOne(p, db, after + 1);
      if next.Some? {
        OneMoreIsTrusted(p, db.history.value);
        RefusalRepeats(p, next.value, after + 1, budget - 1);
      }
    }
  }

  ghost function AfterRuns(p: Program, db: Database, budgets: seq<nat>): Database
    decreases |budgets|
  {
    if budgets == [] then db else AfterRuns(p, Migrate(p, db, budgets[0]).0, budgets[1..])
  }

  /** Any number of runs that were cut short leave the outcome of the run that is not. */
  lemma {:induction false} CrashesDoNotMatter(p: Program, db: Database, budgets: seq<nat>)
    ensures Uninterrupted(p, AfterRuns(p, db, budgets)) == Uninterrupted(p, db)
    decreases |budgets|
  {
    if budgets != [] {
      RunResumes(p, db, budgets[0]);
      CrashesDoNotMatter(p, Migrate(p, db, budgets[0]).0, budgets[1..]);
    }
  }

  /** A database that is current is left alone. */
  lemma DoneIsDone(p: Program, db: Database, budget: nat, again: nat)
    requires Migrate(p, db, budget).1.Done?
    ensures Migrate(p, Migrate(p, db, budget).0, again) == Migrate(p, db, budget)
  {
    EveryStopIsTrusted(p, db, budget);
  }

  /** The first pending upgrade is there and goes through. */
  ghost predicate FirstGoesThrough(p: Program, db: Database) {
    && db.history.Some? && Trusted(p, db.history.value) && Registered(p, Highest(db.history.value) + 1)
    && MigrationTo(p, Highest(db.history.value) + 1).upgrade(db.schema).Some?
  }

  /** A refusal changes nothing exactly when the first pending upgrade did not commit before it. */
  lemma RefusalChangesNothing(p: Program, db: Database, budget: nat)
    requires Migrate(p, db, budget).1.Refused?
    ensures Migrate(p, db, budget).0 == db <==> !FirstGoesThrough(p, db)
    ensures FirstGoesThrough(p, db) ==> Migrate(p, db, budget).1.error.UpgradeFailed?
  {
    if db.history.Some? && Trusted(p, db.history.value) {
      var after := Highest(db.history.value);
      OnlyUpgradesFailLate(p, db, after, budget);
      if FirstGoesThrough(p, db) {
        OnlyUpgradesFailLate(p, ApplyOne(p, db, after + 1).value, after + 1, budget - 1);
      }
    }
  }

  lemma {:induction false} OnlyUpgradesFailLate(p: Program, db: Database, after: int, budget: nat)
    requires db.history.Some?
    ensures var (db', outcome) := ApplyPending(p, db, after, budget);
            && db'.history.Some? && db.history.value <= db'.history.value
            && (outcome.Refused? && outcome.error.Unregistered? ==> db' == db && after < 1)
            && (outcome.Refused? ==> outcome.error.Unregistered? || outcome.error.UpgradeFailed?)
    decreases Current(p) - after
  {
    if after < Current(p) && Registered(p, after + 1) && budget > 0 {
      var next := ApplyOne(p, db, after + 1);
      if next.Some? { OnlyUpgradesFailLate(p, next.value, after + 1, budget - 1); }
    }
  }

  // ----- What a complete run amounts to

  /** The upgrades after version `from`, one after the other. */
  function Chain(p: Program, schema: Schema, from: int): Option<Schema>
    requires from >= 1
    decreases Current(p) - from
  {
    if from >= Current(p) then Some(schema)
    else
      match MigrationTo(p, from + 1).upgrade(schema)
      case None => None
      case Some(next) => Chain(p, next, from + 1)
  }

  function RowsAfter(p: Program, from: int): seq<Row>
    requires from >= 1
    decreases Current(p) - from
  {
    if from >= Current(p) then [] else [RowFor(p, from + 1)] + RowsAfter(p, from + 1)
  }

  lemma {:induction false} PendingIsChain(p: Program, db: Database, after: int, budget: nat)
    requires db.history.Some? && after >= 1 && budget >= Current(p) - after
    ensures var (db', outcome) := ApplyPending(p, db, after, budget);
            && (outcome.Done? <==> Chain(p, db.schema, after).Some?)
            && (outcome.Done? ==>
                  db' == Database(Chain(p, db.schema, after).value, Some(db.history.value + RowsAfter(p, after))))
            && !outcome.Interrupted?
    decreases Current(p) - after
  {
    if after < Current(p) {
      var next := ApplyOne(p, db, after + 1);
      if next.Some? {
        PendingIsChain(p, next.value, after + 1, budget - 1);
        assert db.history.value + [RowFor(p, after + 1)] + RowsAfter(p, after + 1) ==
                 db.history.value + RowsAfter(p, after);
      }
    } else {
      assert db.history.value + [] == db.history.value;
    }
  }

  /** A legacy database gets every upgrade and its row, or stays as it is. */
  lemma LegacyIsAllOrNothing(p: Program, db: Database)
    requires db.history.None? && db.schema.shape.LegacyShape?
    ensures match Chain(p, db.schema, 1)
            case Some(schema) =>
              Uninterrupted(p, db) == (Database(schema, Some([Row(1, LegacyBaseline)] + RowsAfter(p, 1))), Done)
            case None => Uninterrupted(p, db) == (db, Refused(UpgradeFailed))
  {
    PendingIsChain(p, Stamped(db, 1, LegacyBaseline), 1, |p.migrations|);
    OnlyUpgradesFailLate(p, Stamped(db, 1, LegacyBaseline), 1, |p.migrations|);
  }

  // ----- Older and newer programs

  /** The newer program has the older one's migrations and more. */
  ghost predicate Extends(p: Program, p': Program) {
    p.migrations <= p'.migrations
  }

  /** Both programs trust the same histories, but for those that are too new for the older one. */
  lemma HistoryAcrossVersions(p: Program, p': Program, history: seq<Row>)
    requires Extends(p, p')
    ensures Trusted(p, history) <==> Trusted(p', history) && Highest(history) <= Current(p)
  {
    if Trusted(p, history) {
      forall i | 0 <= i < |history| && Registered(p, history[i].version)
        ensures RowFor(p', history[i].version) == RowFor(p, history[i].version) {
      }
    }
    if Trusted(p', history) && Highest(history) <= Current(p) {
      forall i | 0 <= i < |history|
        ensures (i == 0 && IsMarker(history[i].checksum))
                || (Registered(p, history[i].version) && history[i] == RowFor(p, history[i].version)) {
        assert history[i].version <= Current(p);
      }
    }
  }

  lemma {:induction false} PendingInTwo(p: Program, p': Program, db: Database, after: int)
    requires Extends(p, p') && db.history.Some? && Trusted(p, db.history.value)
             && after == Highest(db.history.value) >= 0
    ensures var db' := ApplyPending(p, db, after, Unlimited(p)).0;
            && db'.history.Some? && Trusted(p, db'.history.value) && Highest(db'.history.value) >= 0
            && ApplyPending(p', db', Highest(db'.history.value), Unlimited(p')) ==
                 ApplyPending(p', db, after, Unlimited(p'))
    decreases Current(p) - after
  {
    if after < Current(p) && Registered(p, after + 1) {
      var next := ApplyOne(p, db, after + 1);
      assert MigrationTo(p', after + 1) == MigrationTo(p, after + 1);
      if next.Some? {
        OneMoreIsTrusted(p, db.history.value);
        PendingInTwo(p, p', next.value, after + 1);
        EnoughIsEnough(p, next.value, after + 1, Unlimited(p) - 1, Unlimited(p));
        EnoughIsEnough(p', next.value, after + 1, Unlimited(p') - 1, Unlimited(p'));
      }
    }
  }

  /** Going through the older program ends where the newer one alone does. */
  lemma StampedUpgradesInTwo(p: Program, p': Program, db: Database)
    requires Extends(p, p') && db.history.Some? && Trusted(p, db.history.value)
    ensures Uninterrupted(p', Uninterrupted(p, db).0) == Uninterrupted(p', db)
  {
    var history := db.history.value;
    HistoryAcrossVersions(p, p', history);
    if Highest(history) >= 0 {
      PendingInTwo(p, p', db, Highest(history));
      HistoryAcrossVersions(p, p', Uninterrupted(p, db).0.history.value);
    }
  }

  /** The newer program's upgrades are the older one's, then its own. */
  lemma {:induction false} ChainInTwo(p: Program, p': Program, schema: Schema, from: int)
    requires Extends(p, p') && 1 <= from <= Current(p)
    ensures Chain(p', schema, from) ==
            match Chain(p, schema, from)
            case None => None
            case Some(older) => Chain(p', older, Current(p))
    decreases Current(p) - from
  {
    if from < Current(p) {
      assert MigrationTo(p', from + 1) == MigrationTo(p, from + 1);
      var next := MigrationTo(p, from + 1).upgrade(schema);
      if next.Some? { ChainInTwo(p, p', next.value, from + 1); }
    }
  }

  /**
    For a legacy database it does so exactly when the newer program's own upgrades take what the older one's
    make of it: if one fails, the newer program alone rolls everything back, and the two together keep the older schema.
   */
  lemma LegacyUpgradesInTwo(p: Program, p': Program, db: Database)
    requires Extends(p, p') && db.history.None? && db.schema.shape.LegacyShape?
    ensures Uninterrupted(p', Uninterrupted(p, db).0) == Uninterrupted(p', db) <==>
            match Chain(p, db.schema, 1)
            case None => true
            case Some(older) => Chain(p', older, Current(p)).Some?
  {
    var stamped := Stamped(db, 1, LegacyBaseline);
    ChainInTwo(p, p', db.schema, 1);
    LegacyIsAllOrNothing(p, db);
    LegacyIsAllOrNothing(p', db);
    if Uninterrupted(p, db).1.Done? {
      PendingInTwo(p, p', stamped, 1);
      EnoughIsEnough(p, stamped, 1, |p.migrations|, Unlimited(p));
      EnoughIsEnough(p', stamped, 1, |p'.migrations|, Unlimited(p'));
      HistoryAcrossVersions(p, p', Uninterrupted(p, db).0.history.value);
      PendingIsTrusted(p, stamped, |p.migrations|);
    }
  }

  // ----- What the checks and a run do, row by row

  ghost predicate GoodRow(p: Program, rows: seq<Row>, i: nat)
    requires i < |rows|
  {
    var v := rows[i].version;
    || (i == 0 && rows[i].checksum in {LegacyBaseline, FreshCreate, AdoptedWithoutHistory})
    || (2 <= v <= |p.migrations| + 1 && rows[i].checksum == Digest(v, p.migrations[v - 2].description))
  }

  ghost predicate Consecutive(rows: seq<Row>) {
    forall i | 0 <= i < |rows| :: rows[i].version == rows[0].version + i
  }

  ghost predicate AllGood(p: Program, rows: seq<Row>, from: nat) {
    forall i: nat | from <= i < |rows| :: GoodRow(p, rows, i)
  }

  ghost predicate FirstBad(p: Program, rows: seq<Row>, from: nat, i: nat) {
    from <= i < |rows| && !GoodRow(p, rows, i) && forall j: nat | from <= j < i :: GoodRow(p, rows, j)
  }

  /** The history that is accepted, and its last version; otherwise why it is not. */
  ghost predicate Judged(p: Program, rows: seq<Row>, r: Result<int, Error>) {
    if rows == [] then r == Err(EmptyHistory)
    else if !Consecutive(rows) then r == Err(Gap)
    else if !AllGood(p, rows, 0) then
      forall i: nat | FirstBad(p, rows, 0, i) ::
        r == Err(if rows[i].checksum in {LegacyBaseline, FreshCreate, AdoptedWithoutHistory} then MisplacedMarker
                 else UnknownChecksum)
    else if rows[|rows| - 1].version > |p.migrations| + 1 then r == Err(NewerDatabase)
    else r == Ok(rows[|rows| - 1].version)
  }

  /** `rows` records the upgrades after version `after` that took one of `schemas` to the next. */
  ghost predicate Applied(p: Program, after: int, schemas: seq<Schema>, rows: seq<Row>) {
    |schemas| == |rows| + 1 && forall k: nat | k < |rows| :: AppliedAt(p, after, schemas, rows, k)
  }

  ghost predicate AppliedAt(p: Program, after: int, schemas: seq<Schema>, rows: seq<Row>, k: nat)
    requires k < |rows| && |schemas| == |rows| + 1
  {
    var v := after + 1 + k;
    && 2 <= v <= |p.migrations| + 1
    && p.migrations[v - 2].upgrade(schemas[k]) == Some(schemas[k + 1])
    && rows[k] == Row(v, Digest(v, p.migrations[v - 2].description))
  }

  /** Why the upgrades end with the last of `schemas`. */
  ghost predicate EndsAs(p: Program, after: int, schemas: seq<Schema>, budget: nat, outcome: Outcome)
    requires schemas != []
  {
    var next := after + |schemas|;
    if next > |p.migrations| + 1 then outcome == Done
    else if next < 2 then outcome == Refused(Unregistered)
    else if |schemas| - 1 == budget then outcome == Interrupted
    else outcome == Refused(UpgradeFailed) && p.migrations[next - 2].upgrade(schemas[|schemas| - 1]).None?
  }

  lemma {:induction false} PendingApplies(p: Program, db: Database, after: int, budget: nat)
    returns (schemas: seq<Schema>, rows: seq<Row>)
    requires db.history.Some?
    ensures Applied(p, after, schemas, rows) && schemas[0] == db.schema && |rows| <= budget
    ensures var (db', outcome) := ApplyPending(p, db, after, budget);
            && db' == Database(schemas[|rows|], Some(db.history.value + rows))
            && EndsAs(p, after, schemas, budget, outcome)
    decreases budget
  {
    if after < Current(p) && Registered(p, after + 1) && budget > 0 && ApplyOne(p, db, after + 1).Some? {
      var next := ApplyOne(p, db, after + 1).value;
      var later, laterRows := PendingApplies(p, next, after + 1, budget - 1);
      var row := RowFor(p, after + 1);
      schemas, rows := [db.schema] + later, [row] + laterRows;
      AppliedBefore(p, after, db.schema, later, laterRows);
      assert db.history.value + [row] + laterRows == db.history.value + rows;
      assert schemas[|rows|] == later[|laterRows|];
    } else {
      schemas, rows := [db.schema], [];
      assert db.history.value + [] == db.history.value;
    }
  }

  lemma AppliedBefore(p: Program, after: int, schema: Schema, later: seq<Schema>, laterRows: seq<Row>)
    requires Registered(p, after + 1) && Applied(p, after + 1, later, laterRows)
    requires MigrationTo(p, after + 1).upgrade(schema) == Some(later[0])
    ensures Applied(p, after, [schema] + later, [RowFor(p, after + 1)] + laterRows)
  {
    var schemas, rows := [schema] + later, [RowFor(p, after + 1)] + laterRows;
    forall k: nat | k < |rows| ensures AppliedAt(p, after, schemas, rows, k) {
      if k > 0 { assert AppliedAt(p, after + 1, later, laterRows, k - 1); }
    }
  }

  lemma GoodRowIs(p: Program, rows: seq<Row>, i: nat)
    requires i < |rows|
    ensures GoodRow(p, rows, i) <==>
            (i == 0 && IsMarker(rows[i].checksum))
            || (Registered(p, rows[i].version) && rows[i] == RowFor(p, rows[i].version))
  {
  }

  lemma {:induction false} FirstBadIsFirst(p: Program, rows: seq<Row>, from: nat)
    requires from <= |rows|
    ensures AllGood(p, rows, from) ==> FirstBadRow(p, rows, from) == NewerDatabase
    ensures !AllGood(p, rows, from) ==>
              exists i: nat :: FirstBad(p, rows, from, i)
                && FirstBadRow(p, rows, from) == if IsMarker(rows[i].checksum) then MisplacedMarker else UnknownChecksum
    decreases |rows| - from
  {
    if from < |rows| {
      GoodRowIs(p, rows, from);
      if GoodRow(p, rows, from) {
        FirstBadIsFirst(p, rows, from + 1);
        if !AllGood(p, rows, from) {
          assert !AllGood(p, rows, from + 1);
          var i: nat :| FirstBad(p, rows, from + 1, i) && FirstBadRow(p, rows, from + 1) ==
            if IsMarker(rows[i].checksum) then MisplacedMarker else UnknownChecksum;
          assert FirstBad(p, rows, from, i);
        }
      } else {
        assert FirstBad(p, rows, from, from);
      }
    }
  }

  lemma TrustedIsGood(p: Program, rows: seq<Row>)
    requires rows != []
    ensures Trusted(p, rows) <==>
            && Consecutive(rows) && AllGood(p, rows, 0)
            && rows[|rows| - 1].version <= |p.migrations| + 1
  {
    forall i: nat | i < |rows| ensures GoodRow(p, rows, i) <==>
            (i == 0 && IsMarker(rows[i].checksum))
            || (Registered(p, rows[i].version) && rows[i] == RowFor(p, rows[i].version)) {
      GoodRowIs(p, rows, i);
    }
  }

  lemma TrustedIsJudged(p: Program, rows: seq<Row>)
    ensures Judged(p, rows, if Trusted(p, rows) then Ok(Highest(rows)) else Err(WhyNot(p, rows)))
  {
    if rows != [] {
      TrustedIsGood(p, rows);
      FirstBadIsFirst(p, rows, 0);
      if !Consecutive(rows) {
        var i :| 0 <= i < |rows| && rows[i].version != rows[0].version + i;
      }
    }
  }

  // ----- The database file

  class DatabaseFile {
    var schema: Schema
    var history: Option<seq<Row>>

    ghost function Contents(): Database
      reads this
    {
      Database(schema, history)
    }

    constructor (schema: Schema, history: Option<seq<Row>>)
      ensures Contents() == Database(schema, history)
    {
      this.schema, this.history := schema, history;
    }

    method ValidateHistory(p: Program, rows: seq<Row>) returns (r: Result<int, Error>)
      ensures r == (if Trusted(p, rows) then Ok(Highest(rows)) else Err(WhyNot(p, rows))) && Judged(p, rows, r)
    {
      TrustedIsJudged(p, rows);
      if rows == [] {
        return Err(EmptyHistory);
      }
      for i := 0 to |rows|
        invariant forall j | 0 <= j < i :: rows[j].version == rows[0].version + j
      {
        if rows[i].version != rows[0].version + i {
          return Err(Gap);
        }
      }
      for i := 0 to |rows|
        invariant forall j | 0 <= j < i ::
            (j == 0 && IsMarker(rows[j].checksum))
            || (Registered(p, rows[j].version) && rows[j] == RowFor(p, rows[j].version))
        invariant FirstBadRow(p, rows, i) == FirstBadRow(p, rows, 0)
      {
        if IsMarker(rows[i].checksum) {
          if i != 0 {
            return Err(MisplacedMarker);
          }
          continue;
        }
        if !Registered(p, rows[i].version)
            || rows[i].checksum != Digest(rows[i].version, MigrationTo(p, rows[i].version).description) {
          return Err(UnknownChecksum);
        }
      }
      if Highest(rows) > Current(p) {
        return Err(NewerDatabase);
      }
      return Ok(Highest(rows));
    }

    /** One transaction per version; a failing one is rolled back. */
    method ApplyPendingMigrations(p: Program, startAfter: int, budget: nat)
      returns (outcome: Outcome, ghost schemas: seq<Schema>, ghost rows: seq<Row>)
      requires history.Some?
      modifies this
      ensures (Contents(), outcome) == old(ApplyPending(p, Contents(), startAfter, budget))
      ensures Applied(p, startAfter, schemas, rows) && schemas[0] == old(schema) && schemas[|rows|] == schema
      ensures history == Some(old(history).value + rows) && |rows| <= budget
      ensures EndsAs(p, startAfter, schemas, budget, outcome)
    {
      schemas, rows := PendingApplies(p, Contents(), startAfter, budget);
      var version, left := startAfter, budget;
      while version < Current(p)
        invariant history.Some? && version >= startAfter
        invariant ApplyPending(p, Contents(), version, left) == old(ApplyPending(p, Contents(), startAfter, budget))
        decreases Current(p) - version
      {
        if !Registered(p, version + 1) {
          outcome := Refused(Unregistered);
          return;
        }
        if left == 0 {
          outcome := Interrupted;
          return;
        }
        var upgraded := MigrationTo(p, version + 1).upgrade(schema);
        if upgraded.None? {
          outcome := Refused(UpgradeFailed);
          return;
        }
        schema, history := upgraded.value, Some(history.value + [RowFor(p, version + 1)]);
        version, left := version + 1, left - 1;
      }
      outcome := Done;
    }

    /** The legacy path: stamp and upgrade in one transaction. */
    method UpgradeLegacy(p: Program) returns (outcome: Outcome, ghost schemas: seq<Schema>, ghost rows: seq<Row>)
      requires history.None?
      modifies this
      ensures (Contents(), outcome) == old(FromLegacy(p, Contents()))
      ensures Applied(p, 1, schemas, rows) && schemas[0] == old(schema)
      ensures EndsAs(p, 1, schemas, |p.migrations|, outcome) && !outcome.Interrupted?
      ensures if outcome.Done? then schema == schemas[|rows|] && history == Some([Row(1, LegacyBaseline)] + rows)
              else schema == old(schema) && history.None?
    {
      ghost var before := Contents();
      var savedSchema := schema;
      history := Some([Row(1, LegacyBaseline)]);
      assert Contents() == Stamped(before, 1, LegacyBaseline);
      outcome, schemas, rows := ApplyPendingMigrations(p, 1, |p.migrations|);
      if !outcome.Done? {
        schema, history := savedSchema, None;
      }
    }

    /**
      Brings the database to the program's version, or as far as `budget` committed transactions get it. A
      stamped one is upgraded version by version; without a history, the shape of the tables decides.
     */
    method MigrateDatabase(p: Program, budget: nat)
      returns (outcome: Outcome, ghost schemas: seq<Schema>, ghost rows: seq<Row>)
      modifies this
      ensures (Contents(), outcome) == old(Migrate(p, Contents(), budget))
      ensures history.Some? ==> Trusted(p, history.value) || (Contents() == old(Contents()) && outcome.Refused?)
      ensures Uninterrupted(p, Contents()) == old(Uninterrupted(p, Contents()))
      ensures old(history).Some? ==>
                var stamps := old(history).value;
                if exists e :: Judged(p, stamps, Err(e)) then
                  Contents() == old(Contents()) && outcome.Refused? && Judged(p, stamps, Err(outcome.error))
                else
                  && stamps != [] && schemas != [] && EndsAs(p, stamps[|stamps| - 1].version, schemas, budget, outcome)
                  && Applied(p, stamps[|stamps| - 1].version, schemas, rows)
                  && schemas[0] == old(schema) && schema == schemas[|rows|] && history == Some(stamps + rows)
      ensures old(history).None? && !old(schema).shape.LegacyShape? ==>
                && schema == old(schema)
                && (outcome, history) ==
                   if schema.shape.UnknownShape? then (Refused(UnknownDatabase), None)
                   else if budget == 0 then (Interrupted, None)
                   else (Done, Some([Row(|p.migrations| + 1,
                                         if schema.shape.NoTables? then FreshCreate else AdoptedWithoutHistory)]))
      ensures old(history).None? && old(schema).shape.LegacyShape? && budget == 0 ==>
                outcome == Interrupted && Contents() == old(Contents())
      ensures old(history).None? && old(schema).shape.LegacyShape? && budget > 0 ==>
                && Applied(p, 1, schemas, rows) && schemas[0] == old(schema)
                && EndsAs(p, 1, schemas, |p.migrations|, outcome) && !outcome.Interrupted?
                && if outcome.Done? then schema == schemas[|rows|] && history == Some([Row(1, LegacyBaseline)] + rows)
                   else Contents() == old(Contents())
    {
      EveryStopIsTrusted(p, Contents(), budget);
      RunResumes(p, Contents(), budget);
      schemas, rows := [schema], [];
      if history.Some? {
        outcome, schemas, rows := MigrateStamped(p, budget);
        return;
      }
      if schema.shape.UnknownShape? {
        outcome := Refused(UnknownDatabase);
        return;
      }
      if budget == 0 {
        outcome := Interrupted;
        return;
      }
      match schema.shape {
        case NoTables => history := Some([Row(Current(p), FreshCreate)]);
        case CurrentShape => history := Some([Row(Current(p), AdoptedWithoutHistory)]);
        case LegacyShape =>
          outcome, schemas, rows := UpgradeLegacy(p);
          return;
      }
      outcome := Done;
    }

    method MigrateStamped(p: Program, budget: nat)
      returns (outcome: Outcome, ghost schemas: seq<Schema>, ghost rows: seq<Row>)
      requires history.Some?
      modifies this
      ensures (Contents(), outcome) == old(Migrate(p, Contents(), budget))
      ensures var stamps := old(history).value;
              if exists e :: Judged(p, stamps, Err(e)) then
                Contents() == old(Contents()) && outcome.Refused? && Judged(p, stamps, Err(outcome.error))
              else
                && stamps != [] && schemas != [] && EndsAs(p, stamps[|stamps| - 1].version, schemas, budget, outcome)
                && Applied(p, stamps[|stamps| - 1].version, schemas, rows)
                && schemas[0] == old(schema) && schema == schemas[|rows|] && history == Some(stamps + rows)
    {
      schemas, rows := [schema], [];
      var validated := ValidateHistory(p, history.value);
      if validated.Err? {
        outcome := Refused(validated.error);
        return;
      }
      assert history.value + [] == history.value;
      if validated.value == Current(p) {
        outcome := Done;
        return;
      }
      outcome, schemas, rows := ApplyPendingMigrations(p, validated.value, budget);
    }
  }
}

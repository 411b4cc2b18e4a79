/**
  Vector search: the sidecar's nearest neighbours, filtered by status afterwards, against a plain scan.

  Vectors are over the reals. A row order is any order in which a table may answer, so that ties fall
  either way.
 */
module VectorSearch {
  import opened Sorting
  import opened VectorIndex
  import opened Wrappers

  // ----- Distance and similarity

  function Dot(a: Vector, b: Vector): real
    requires |a| == |b|
  {
    if a == [] then 0.0 else Dot(a[..|a| - 1], b[..|a| - 1]) + a[|a| - 1] * b[|a| - 1]
  }

  function SquaredDistance(a: Vector, b: Vector): real
    requires |a| == |b|
  {
    if a == [] then 0.0
    else
      var d := a[|a| - 1] - b[|a| - 1];
      SquaredDistance(a[..|a| - 1], b[..|a| - 1]) + d * d
  }

  ghost predicate Unit(a: Vector) {
    Dot(a, a) == 1.0
  }

  /** The distance the index reports for two vectors. */
  ghost predicate IsDistance(d: real, a: Vector, b: Vector)
    requires |a| == |b|
  {
    d >= 0.0 && d * d == SquaredDistance(a, b)
  }

  function ToCosine(distance: real): real {
    1.0 - distance * distance / 2.0
  }

  lemma {:induction false} SquaredDistanceExpands(a: Vector, b: Vector)
    requires |a| == |b|
    ensures SquaredDistance(a, b) == Dot(a, a) + Dot(b, b) - 2.0 * Dot(a, b)
  {
    if a != [] {
      var n := |a| - 1;
      SquaredDistanceExpands(a[..n], b[..n]);
      var x, y := a[n], b[n];
      assert (x - y) * (x - y) == x * x + y * y - 2.0 * (x * y);
    }
  }

  /** For unit vectors the conversion gives the dot product exactly. */
  lemma CosineIsDot(d: real, a: Vector, b: Vector)
    requires |a| == |b| && IsDistance(d, a, b)
    ensures ToCosine(d) == Dot(a, b) <==> Dot(a, a) + Dot(b, b) == 2.0
    ensures Unit(a) && Unit(b) ==> ToCosine(d) == Dot(a, b)
  {
    SquaredDistanceExpands(a, b);
  }

  lemma SquareGrows(e: real, d: real)
    requires 0.0 <= e < d
    ensures e * e < d * d
  {
    var gap := d - e;
    assert gap * d > 0.0 && gap * e >= 0.0;
    assert d * d - e * e == gap * d + gap * e;
  }

  lemma NearerIsMoreSimilar(d: real, e: real)
    requires d >= 0.0 && e >= 0.0
    ensures d <= e <==> ToCosine(d) >= ToCosine(e)
  {
    if d < e { SquareGrows(d, e); }
    if e < d { SquareGrows(e, d); }
  }

  // ----- Filtering commutes with sorting

  /** The join with the owner's row, and the status filter when there is one. */
  predicate Passes(owners: map<nat, Owner>, statuses: set<nat>, id: nat) {
    id in owners && (statuses == {} || owners[id].status in statuses)
  }

  /** The rows that pass, in the order they come. */
  function Kept(owners: map<nat, Owner>, statuses: set<nat>, rows: seq<nat>): (r: seq<nat>)
    ensures |r| <= |rows|
    ensures forall id :: id in r <==> id in rows && Passes(owners, statuses, id)
  {
    if rows == [] then []
    else
      var before, id := Kept(owners, statuses, rows[..|rows| - 1]), rows[|rows| - 1];
      if Passes(owners, statuses, id) then before + [id] else before
  }

  lemma SortedBelow(rows: seq<nat>, x: nat, le: (nat, nat) -> bool)
    requires TotalPreorder(le) && Sorted(rows, le) && rows != [] && le(rows[|rows| - 1], x)
    ensures forall id | id in rows :: le(id, x)
  {
    forall id | id in rows ensures le(id, x) {
      var i :| 0 <= i < |rows| && rows[i] == id;
      assert i < |rows| - 1 ==> le(rows[i], rows[|rows| - 1]);
    }
  }

  lemma KeptAppend(owners: map<nat, Owner>, statuses: set<nat>, rows: seq<nat>, x: nat)
    ensures Kept(owners, statuses, rows + [x]) ==
            Kept(owners, statuses, rows) + if Passes(owners, statuses, x) then [x] else []
  {
    assert (rows + [x])[..|rows|] == rows;
  }

  lemma {:induction false} KeptInsert(owners: map<nat, Owner>, statuses: set<nat>, x: nat, rows: seq<nat>,
        le: (nat, nat) -> bool)
    requires TotalPreorder(le) && Sorted(rows, le)
    ensures Kept(owners, statuses, Insert(x, rows, le)) ==
            if Passes(owners, statuses, x) then Insert(x, Kept(owners, statuses, rows), le)
            else Kept(owners, statuses, rows)
  {
    if rows != [] {
      var init, last := rows[..|rows| - 1], rows[|rows| - 1];
      if le(last, x) {
        SortedBelow(rows, x, le);
        KeptAppend(owners, statuses, rows, x);
        var kept := Kept(owners, statuses, rows);
        if kept != [] { assert kept[|kept| - 1] in rows; }
      } else {
        KeptInsert(owners, statuses, x, init, le);
        KeptAppend(owners, statuses, Insert(x, init, le), last);
        InsertBefore(Kept(owners, statuses, init), last, x, le);
      }
    }
  }

  lemma InsertBefore(init: seq<nat>, last: nat, x: nat, le: (nat, nat) -> bool)
    requires !le(last, x)
    ensures Insert(x, init + [last], le) == Insert(x, init, le) + [last]
  {
    assert (init + [last])[..|init|] == init;
  }

  lemma {:induction false} KeptSort(owners: map<nat, Owner>, statuses: set<nat>, rows: seq<nat>, le: (nat, nat) -> bool)
    requires TotalPreorder(le)
    ensures Kept(owners, statuses, Sort(rows, le)) == Sort(Kept(owners, statuses, rows), le)
  {
    if rows != [] {
      var init, last := rows[..|rows| - 1], rows[|rows| - 1];
      KeptSort(owners, statuses, init, le);
      SortIsSorted(init, le);
      KeptInsert(owners, statuses, last, Sort(init, le), le);
      var kept := Kept(owners, statuses, init);
      assert (kept + [last])[..|kept|] == kept;
    }
  }

  lemma {:induction false} KeptPrefix(owners: map<nat, Owner>, statuses: set<nat>, rows: seq<nat>, n: nat)
    requires n <= |rows|
    ensures Kept(owners, statuses, rows[..n]) <= Kept(owners, statuses, rows)
  {
    if n < |rows| {
      assert rows[..|rows| - 1][..n] == rows[..n];
      KeptPrefix(owners, statuses, rows[..|rows| - 1], n);
    } else {
      assert rows[..n] == rows;
    }
  }

  // ----- The best k

  function First(rows: seq<nat>, k: nat): seq<nat> {
    if |rows| <= k then rows else rows[..k]
  }

  ghost predicate Enumerates(order: seq<nat>, ids: set<nat>) {
    Distinct(order) && forall id :: id in order <==> id in ids
  }

  /** A best-k list, whatever way ties fall. */
  ghost predicate IsTopK(rows: seq<nat>, ids: set<nat>, score: nat -> real, k: nat) {
    && Distinct(rows) && (forall id | id in rows :: id in ids)
    && |rows| == (if |ids| <= k then |ids| else k)
    && (forall i, j | 0 <= i < j < |rows| :: score(rows[i]) >= score(rows[j]))
    && (forall id, j | id in ids && id !in rows && 0 <= j < |rows| :: score(rows[j]) >= score(id))
  }

  function Elements(rows: seq<nat>): set<nat> {
    set id | id in rows
  }

  lemma {:induction false} DistinctSize(rows: seq<nat>)
    ensures |Elements(rows)| <= |rows|
    ensures Distinct(rows) ==> |Elements(rows)| == |rows|
  {
    if rows != [] {
      var init, last := rows[..|rows| - 1], rows[|rows| - 1];
      DistinctSize(init);
      assert rows == init + [last];
      assert Elements(rows) == Elements(init) + {last};
    }
  }

  lemma SubsetSize(a: set<nat>, b: set<nat>)
    requires a <= b
    ensures |a| <= |b|
  {
    assert b == a + (b - a);
  }

  /** Two best-k lists have the same scores at every place. */
  lemma TopKSameScores(a: seq<nat>, b: seq<nat>, ids: set<nat>, score: nat -> real, k: nat, i: nat)
    requires IsTopK(a, ids, score, k) && IsTopK(b, ids, score, k) && i < |a|
    ensures |a| == |b| && score(a[i]) == score(b[i])
  {
    NoBetterAt(a, b, ids, score, k, i);
    NoBetterAt(b, a, ids, score, k, i);
  }

  lemma NoBetterAt(a: seq<nat>, b: seq<nat>, ids: set<nat>, score: nat -> real, k: nat, i: nat)
    requires IsTopK(a, ids, score, k) && IsTopK(b, ids, score, k) && i < |a|
    ensures score(a[i]) <= score(b[i])
  {
    if score(a[i]) > score(b[i]) {
      forall id | id in a[..i + 1] ensures id in b[..i] {
        var j :| 0 <= j <= i && a[j] == id;
        assert score(a[j]) >= score(a[i]);
        assert id in ids;
        var l :| 0 <= l < |b| && b[l] == id;
      }
      DistinctSize(a[..i + 1]);
      DistinctSize(b[..i]);
      SubsetSize(Elements(a[..i + 1]), Elements(b[..i]));
    }
  }

  /** Cutting a sorted list of all of them gives a best-k list. */
  lemma SortedCutIsTopK(rows: seq<nat>, ids: set<nat>, score: nat -> real, le: (nat, nat) -> bool, k: nat)
    requires Enumerates(rows, ids) && Sorted(rows, le)
    requires forall i, j | i in ids && j in ids && le(i, j) :: score(i) >= score(j)
    ensures IsTopK(First(rows, k), ids, score, k)
  {
    DistinctSize(rows);
    assert Elements(rows) == ids;
    var cut := First(rows, k);
    forall id, j | id in ids && id !in cut && 0 <= j < |cut| ensures score(cut[j]) >= score(id) {
      var i :| 0 <= i < |rows| && rows[i] == id;
      assert le(rows[j], rows[i]);
    }
  }

  // ----- The two searches

  function ByDistance(distance: nat -> real): (nat, nat) -> bool {
    (i: nat, j: nat) => distance(i) <= distance(j)
  }

  function ByScore(score: nat -> real): (nat, nat) -> bool {
    (i: nat, j: nat) => score(i) >= score(j)
  }

  function AtLeast(n: nat, least: nat): nat {
    if n < least then least else n
  }

  const OVER_FETCH_MULTIPLIER := 5
  const OVER_FETCH_MIN := 50
  const ESCALATION_MULTIPLIER := 20

  /** The filtered rows among the `size` nearest ones. */
  function Fetched(owners: map<nat, Owner>, statuses: set<nat>, order: seq<nat>, distance: nat -> real,
        size: nat): seq<nat> {
    Kept(owners, statuses, First(Sort(order, ByDistance(distance)), size))
  }

  /** How many nearest rows the search ends up asking for: it widens at most once. */
  function FetchSize(owners: map<nat, Owner>, statuses: set<nat>, order: seq<nat>, distance: nat -> real, k: nat): nat {
    if statuses == {} then k
    else
      var overFetch, escalated :=
        AtLeast(k * OVER_FETCH_MULTIPLIER, OVER_FETCH_MIN), AtLeast(k * ESCALATION_MULTIPLIER, OVER_FETCH_MIN);
      if |Fetched(owners, statuses, order, distance, overFetch)| < k
         && |First(Sort(order, ByDistance(distance)), overFetch)| == overFetch && escalated > overFetch
      then escalated
      else overFetch
  }

  function SidecarIds(owners: map<nat, Owner>, statuses: set<nat>, order: seq<nat>, distance: nat -> real,
        k: nat): seq<nat> {
    First(Fetched(owners, statuses, order, distance, FetchSize(owners, statuses, order, distance, k)), k)
  }

  function SearchSidecar(owners: map<nat, Owner>, statuses: set<nat>, order: seq<nat>, distance: nat -> real,
        k: nat): seq<(nat, real)> {
    var ids := SidecarIds(owners, statuses, order, distance, k);
    seq(|ids|, i requires 0 <= i < |ids| => (ids[i], ToCosine(distance(ids[i]))))
  }

  function ScanIds(owners: map<nat, Owner>, statuses: set<nat>, scan: seq<nat>, score: nat -> real, k: nat): seq<nat> {
    First(Sort(Kept(owners, statuses, scan), ByScore(score)), k)
  }

  function SearchPython(owners: map<nat, Owner>, statuses: set<nat>, scan: seq<nat>, score: nat -> real,
        k: nat): seq<(nat, real)> {
    var ids := ScanIds(owners, statuses, scan, score, k);
    seq(|ids|, i requires 0 <= i < |ids| => (ids[i], score(ids[i])))
  }

  // ----- Agreement

  /** The rows whose owner exists and has one of the statuses asked for; any status will do when none is. */
  ghost function Survivors(owners: map<nat, Owner>, statuses: set<nat>, ids: set<nat>): set<nat> {
    set id | id in ids && id in owners && (statuses == {} || owners[id].status in statuses)
  }

  ghost function IdsOf(found: seq<(nat, real)>): (r: seq<nat>)
    ensures |r| == |found| && forall i | 0 <= i < |found| :: r[i] == found[i].0
  {
    seq(|found|, i requires 0 <= i < |found| => found[i].0)
  }

  /** Distinct matches, each with its own score, best first. */
  ghost predicate AreMatches(found: seq<(nat, real)>, survivors: set<nat>, score: nat -> real) {
    && (forall i | 0 <= i < |found| :: found[i].0 in survivors && found[i].1 == score(found[i].0))
    && (forall i, j | 0 <= i < j < |found| :: found[i].0 != found[j].0 && found[i].1 >= found[j].1)
  }

  /** The index's distances stand for the scan's scores. */
  ghost predicate Converts(ids: set<nat>, distance: nat -> real, score: nat -> real) {
    forall id | id in ids :: distance(id) >= 0.0 && ToCosine(distance(id)) == score(id)
  }

  /** The window holds as many matches as the result can. */
  ghost predicate EnoughFetched(owners: map<nat, Owner>, statuses: set<nat>, order: seq<nat>,
        distance: nat -> real, k: nat, ids: set<nat>) {
    var found := |Fetched(owners, statuses, order, distance, FetchSize(owners, statuses, order, distance, k))|;
    found >= k || found >= |Survivors(owners, statuses, ids)|
  }

  lemma {:induction false} KeptDistinct(owners: map<nat, Owner>, statuses: set<nat>, rows: seq<nat>)
    requires Distinct(rows)
    ensures Distinct(Kept(owners, statuses, rows))
  {
    if rows != [] { KeptDistinct(owners, statuses, rows[..|rows| - 1]); }
  }

  lemma KeptSortedEnumerates(owners: map<nat, Owner>, statuses: set<nat>, order: seq<nat>, ids: set<nat>,
        le: (nat, nat) -> bool)
    requires Enumerates(order, ids) && TotalPreorder(le)
    ensures var rows := Kept(owners, statuses, Sort(order, le));
            Enumerates(rows, Survivors(owners, statuses, ids)) && Sorted(rows, le)
            && rows == Sort(Kept(owners, statuses, order), le)
  {
    SortKeepsDistinct(order, le);
    SortIsPermutation(order, le);
    KeptDistinct(owners, statuses, Sort(order, le));
    KeptSort(owners, statuses, order, le);
    SortIsSorted(Kept(owners, statuses, order), le);
  }

  lemma ScanIsTopK(owners: map<nat, Owner>, statuses: set<nat>, scan: seq<nat>, ids: set<nat>, score: nat -> real,
        k: nat)
    requires Enumerates(scan, ids)
    ensures IsTopK(ScanIds(owners, statuses, scan, score, k), Survivors(owners, statuses, ids), score, k)
  {
    KeptSortedEnumerates(owners, statuses, scan, ids, ByScore(score));
    SortedCutIsTopK(Kept(owners, statuses, Sort(scan, ByScore(score))), Survivors(owners, statuses, ids), score,
      ByScore(score), k);
  }

  /** Of a sorted list of all matches, a beginning yields a best-k list exactly when it is long enough. */
  lemma BeginningIsTopK(found: seq<nat>, all: seq<nat>, survivors: set<nat>, score: nat -> real, le: (nat, nat) -> bool,
        k: nat)
    requires found <= all && Enumerates(all, survivors) && Sorted(all, le)
    requires forall i, j | i in survivors && j in survivors && le(i, j) :: score(i) >= score(j)
    ensures IsTopK(First(found, k), survivors, score, k) <==> |found| >= k || |found| >= |survivors|
  {
    DistinctSize(all);
    assert Elements(all) == survivors;
    if |found| >= k || |found| >= |survivors| {
      assert First(found, k) == First(all, k);
      SortedCutIsTopK(all, survivors, score, le, k);
    }
  }

  /** The filtered index search is exact if and only if its last window held enough matches. */
  lemma SidecarIsTopK(owners: map<nat, Owner>, statuses: set<nat>, order: seq<nat>, ids: set<nat>,
        distance: nat -> real, score: nat -> real, k: nat)
    requires Enumerates(order, ids) && Converts(ids, distance, score)
    ensures IsTopK(SidecarIds(owners, statuses, order, distance, k), Survivors(owners, statuses, ids), score, k)
            <==> EnoughFetched(owners, statuses, order, distance, k, ids)
  {
    var le, survivors := ByDistance(distance), Survivors(owners, statuses, ids);
    var near, size := Sort(order, le), FetchSize(owners, statuses, order, distance, k);
    KeptSortedEnumerates(owners, statuses, order, ids, le);
    if |near| > size { KeptPrefix(owners, statuses, near, size); }
    forall i, j | i in survivors && j in survivors && le(i, j) ensures score(i) >= score(j) {
      NearerIsMoreSimilar(distance(i), distance(j));
    }
    BeginningIsTopK(Fetched(owners, statuses, order, distance, size), Kept(owners, statuses, near), survivors, score,
      le, k);
  }

  /** A beginning of a sorted list of all matches. */
  lemma BeginningMatches(found: seq<nat>, all: seq<nat>, survivors: set<nat>, score: nat -> real,
                         le: (nat, nat) -> bool)
    requires found <= all && Enumerates(all, survivors) && Sorted(all, le)
    requires forall i, j | i in survivors && j in survivors && le(i, j) :: score(i) >= score(j)
    ensures forall i | 0 <= i < |found| :: found[i] in survivors
    ensures forall i, j | 0 <= i < j < |found| :: found[i] != found[j] && score(found[i]) >= score(found[j])
  {
    forall i | 0 <= i < |found| ensures found[i] == all[i] && found[i] in survivors { assert all[i] in all; }
    forall i, j | 0 <= i < j < |found| ensures score(found[i]) >= score(found[j]) { assert le(all[i], all[j]); }
  }

  /** The index search finds a beginning of the sorted matches. */
  lemma SidecarIsBeginning(owners: map<nat, Owner>, statuses: set<nat>, order: seq<nat>, distance: nat -> real, k: nat)
    ensures SidecarIds(owners, statuses, order, distance, k) <=
            Kept(owners, statuses, Sort(order, ByDistance(distance)))
  {
    var near, size := Sort(order, ByDistance(distance)), FetchSize(owners, statuses, order, distance, k);
    if |near| > size { KeptPrefix(owners, statuses, near, size); }
  }

  lemma ConvertsOrder(ids: set<nat>, distance: nat -> real, score: nat -> real)
    requires Converts(ids, distance, score)
    ensures forall i, j | i in ids && j in ids && ByDistance(distance)(i, j) :: score(i) >= score(j)
  {
    forall i, j | i in ids && j in ids && ByDistance(distance)(i, j) ensures score(i) >= score(j) {
      NearerIsMoreSimilar(distance(i), distance(j));
    }
  }

  lemma SidecarMatches(owners: map<nat, Owner>, statuses: set<nat>, order: seq<nat>, ids: set<nat>,
                       distance: nat -> real, score: nat -> real, k: nat)
    requires Enumerates(order, ids) && Converts(ids, distance, score)
    ensures AreMatches(SearchSidecar(owners, statuses, order, distance, k), Survivors(owners, statuses, ids), score)
  {
    var le, survivors := ByDistance(distance), Survivors(owners, statuses, ids);
    var found := SidecarIds(owners, statuses, order, distance, k);
    KeptSortedEnumerates(owners, statuses, order, ids, le);
    SidecarIsBeginning(owners, statuses, order, distance, k);
    ConvertsOrder(survivors, distance, score);
    BeginningMatches(found, Kept(owners, statuses, Sort(order, le)), survivors, score, le);
  }

  /** Both searches give the same scores at every place, or the index search comes up short. */
  lemma SearchesAgree(owners: map<nat, Owner>, statuses: set<nat>, order: seq<nat>, scan: seq<nat>, ids: set<nat>,
                      distance: nat -> real, score: nat -> real, k: nat)
    requires Enumerates(order, ids) && Enumerates(scan, ids) && Converts(ids, distance, score)
    ensures var a, b := SearchSidecar(owners, statuses, order, distance, k),
                        SearchPython(owners, statuses, scan, score, k);
            && (EnoughFetched(owners, statuses, order, distance, k, ids) <==>
                |a| == |b| && forall i | 0 <= i < |a| :: a[i].1 == b[i].1)
            && IsTopK(IdsOf(b), Survivors(owners, statuses, ids), score, k)
            && AreMatches(a, Survivors(owners, statuses, ids), score)
            && AreMatches(b, Survivors(owners, statuses, ids), score)
            && (EnoughFetched(owners, statuses, order, distance, k, ids) ==>
                  IsTopK(IdsOf(a), Survivors(owners, statuses, ids), score, k))
  {
    SidecarMatches(owners, statuses, order, ids, distance, score, k);
    assert IdsOf(SearchPython(owners, statuses, scan, score, k)) == ScanIds(owners, statuses, scan, score, k);
    assert IdsOf(SearchSidecar(owners, statuses, order, distance, k)) ==
           SidecarIds(owners, statuses, order, distance, k);
    var a, b := SidecarIds(owners, statuses, order, distance, k), ScanIds(owners, statuses, scan, score, k);
    var survivors := Survivors(owners, statuses, ids);
    ScanIsTopK(owners, statuses, scan, ids, score, k);
    SidecarIsTopK(owners, statuses, order, ids, distance, score, k);
    if EnoughFetched(owners, statuses, order, distance, k, ids) {
      forall i: nat | i < |a| ensures ToCosine(distance(a[i])) == score(b[i]) {
        TopKSameScores(a, b, survivors, score, k, i);
      }
    }
  }

  // ----- When the window is enough

  lemma {:induction false} AllPass(owners: map<nat, Owner>, statuses: set<nat>, rows: seq<nat>)
    ensures Kept(owners, statuses, rows) == rows <==> forall id | id in rows :: Passes(owners, statuses, id)
  {
    if rows != [] {
      assert rows == rows[..|rows| - 1] + [rows[|rows| - 1]];
      AllPass(owners, statuses, rows[..|rows| - 1]);
      assert |Kept(owners, statuses, rows[..|rows| - 1])| <= |rows| - 1;
      if id :| id in rows && !Passes(owners, statuses, id) {
        assert id !in Kept(owners, statuses, rows);
      }
    }
  }

  /** Without a status filter the index search is exact, as long as every indexed owner exists. */
  lemma UnfilteredIsEnough(owners: map<nat, Owner>, order: seq<nat>, distance: nat -> real, k: nat, ids: set<nat>)
    requires Enumerates(order, ids) && forall id | id in ids :: id in owners
    ensures EnoughFetched(owners, {}, order, distance, k, ids)
  {
    var near := Sort(order, ByDistance(distance));
    SortIsPermutation(order, ByDistance(distance));
    AllPass(owners, {}, First(near, k));
    DistinctSize(order);
    assert Elements(order) == ids && Survivors(owners, {}, ids) == ids;
  }

  /** Nothing was cut off: the window is wider than the index. */
  lemma WholeIndexIsEnough(owners: map<nat, Owner>, statuses: set<nat>, order: seq<nat>, distance: nat -> real,
        k: nat, ids: set<nat>)
    requires Enumerates(order, ids) && |order| <= FetchSize(owners, statuses, order, distance, k)
    ensures EnoughFetched(owners, statuses, order, distance, k, ids)
  {
    SortIsPermutation(order, ByDistance(distance));
    KeptSortedEnumerates(owners, statuses, order, ids, ByDistance(distance));
    var all := Kept(owners, statuses, Sort(order, ByDistance(distance)));
    DistinctSize(all);
    assert Elements(all) == Survivors(owners, statuses, ids);
  }

  /** Of some rows, those whose owner exists and has one of the statuses asked for. */
  ghost function Matching(owners: map<nat, Owner>, statuses: set<nat>, rows: seq<nat>): set<nat> {
    Survivors(owners, statuses, Elements(rows))
  }

  lemma KeptSize(owners: map<nat, Owner>, statuses: set<nat>, rows: seq<nat>)
    requires Distinct(rows)
    ensures |Kept(owners, statuses, rows)| == |Matching(owners, statuses, rows)|
  {
    KeptDistinct(owners, statuses, rows);
    DistinctSize(Kept(owners, statuses, rows));
    assert Elements(Kept(owners, statuses, rows)) == Matching(owners, statuses, rows);
  }

  /**
    The window: without a filter k rows; with one, five times k and at least fifty, and once more twenty times k
    when three or more results were asked for, the index filled the first window and too few of its rows match.
   */
  lemma WindowIs(owners: map<nat, Owner>, statuses: set<nat>, order: seq<nat>, distance: nat -> real, k: nat)
    requires Distinct(order)
    ensures var window, near := FetchSize(owners, statuses, order, distance, k), Sort(order, ByDistance(distance));
            var narrow := if k < 10 then 50 else 5 * k;
            && (statuses == {} ==> window == k)
            && (statuses != {} ==>
                  window ==
                  if k >= 3 && |order| >= narrow && |near| == |order|
                     && |Matching(owners, statuses, near[..narrow])| < k
                  then 20 * k else narrow)
  {
    var near := Sort(order, ByDistance(distance));
    SortIsPermutation(order, ByDistance(distance));
    SortKeepsDistinct(order, ByDistance(distance));
    FirstMatching(owners, statuses, near, if k < 10 then 50 else 5 * k);
  }

  lemma FirstMatching(owners: map<nat, Owner>, statuses: set<nat>, near: seq<nat>, n: nat)
    requires Distinct(near)
    ensures |First(near, n)| == if |near| >= n then n else |near|
    ensures |near| >= n ==> |Kept(owners, statuses, First(near, n))| == |Matching(owners, statuses, near[..n])|
  {
    if |near| >= n {
      assert First(near, n) == near[..n];
      KeptSize(owners, statuses, near[..n]);
    }
  }

  /** The single escalation widens the window only from three results on. */
  lemma SmallSearchesNeverWiden(owners: map<nat, Owner>, statuses: set<nat>, order: seq<nat>, distance: nat -> real,
        k: nat)
    requires k <= 2 && statuses != {}
    ensures FetchSize(owners, statuses, order, distance, k) == OVER_FETCH_MIN
  {
  }

  lemma {:induction false} NonePass(owners: map<nat, Owner>, statuses: set<nat>, rows: seq<nat>)
    requires forall id | id in rows :: !Passes(owners, statuses, id)
    ensures Kept(owners, statuses, rows) == []
  {
    if rows != [] { NonePass(owners, statuses, rows[..|rows| - 1]); }
  }

  /** When no row of the last window passes, every match farther out is missed. */
  lemma FilteredWindowMissesAll(owners: map<nat, Owner>, statuses: set<nat>, order: seq<nat>, ids: set<nat>,
                                distance: nat -> real, score: nat -> real, k: nat)
    requires Enumerates(order, ids) && Converts(ids, distance, score) && k > 0 && Survivors(owners, statuses, ids) != {}
    requires var fetched := FetchSize(owners, statuses, order, distance, k);
             forall id | id in First(Sort(order, ByDistance(distance)), fetched) :: !Passes(owners, statuses, id)
    ensures SidecarIds(owners, statuses, order, distance, k) == []
    ensures !IsTopK([], Survivors(owners, statuses, ids), score, k)
  {
    var window := First(Sort(order, ByDistance(distance)), FetchSize(owners, statuses, order, distance, k));
    NonePass(owners, statuses, window);
    var id :| id in Survivors(owners, statuses, ids);
    SubsetSize({id}, Survivors(owners, statuses, ids));
  }

  // ----- One such search

  function CrowdedOwner(id: nat): Owner {
    Owner(0, MemoryText, "", if id == 50 then 1 else 0)
  }

  const CROWDED := map id: nat | 0 <= id < 51 :: CrowdedOwner(id)
  const CROWDED_ORDER: seq<nat> := seq(51, i => i)

  /** Fifty retracted rows lie nearer than the one active row, and a search for one active row finds none. */
  lemma CrowdedOutSearch()
    ensures SidecarIds(CROWDED, {1}, CROWDED_ORDER, (id: nat) => id as real, 1) == []
    ensures 50 in CROWDED_ORDER && Passes(CROWDED, {1}, 50)
  {
    var distance: nat -> real := (id: nat) => id as real;
    assert Sorted(CROWDED_ORDER, ByDistance(distance));
    SortOfSorted(CROWDED_ORDER, ByDistance(distance));
    SmallSearchesNeverWiden(CROWDED, {1}, CROWDED_ORDER, distance, 1);
    var window := First(CROWDED_ORDER, 50);
    forall id | id in window ensures !Passes(CROWDED, {1}, id) {
      assert id < 50 && CROWDED[id] == CrowdedOwner(id);
    }
    NonePass(CROWDED, {1}, window);
    assert CROWDED_ORDER[50] == 50 && CROWDED[50] == CrowdedOwner(50);
  }

  // ----- Searching a store

  function IndexIds(entries: map<nat, Entry>, space: nat, kind: Kind): set<nat> {
    set id | id in entries && entries[id].space == space && entries[id].kind == kind
  }

  function TableIds(main: map<nat, Embedding>, space: nat, kind: Kind): set<nat> {
    set id | id in main && main[id].space == space && main[id].kind == kind
  }

  function Similarity(main: map<nat, Embedding>, query: Vector): nat -> real {
    (id: nat) => if id in main && |main[id].vector| == |query| then Dot(main[id].vector, query) else 0.0
  }

  /** One model and dimension, normalized vectors of it, and no owner is missing. */
  ghost predicate Searchable(s: State, model: string, dim: nat) {
    forall id | id in s.main ::
      s.main[id].model == model && s.main[id].dim == dim && |s.main[id].vector| == dim && Unit(s.main[id].vector)
      && id in s.owners
  }

  ghost predicate MeasuredBy(main: map<nat, Embedding>, query: Vector, distance: nat -> real) {
    forall id | id in main && |main[id].vector| == |query| :: IsDistance(distance(id), main[id].vector, query)
  }

  /** Both answers are matches of the space and kind with their dot products, the scan's being the best there are. */
  ghost predicate AreAnswers(s: State, space: nat, kind: Kind, statuses: set<nat>, query: Vector, k: nat,
                             a: seq<(nat, real)>, b: seq<(nat, real)>)
  {
    var survivors := Survivors(s.owners, statuses, TableIds(s.main, space, kind));
    && IsTopK(IdsOf(b), survivors, Similarity(s.main, query), k)
    && AreMatches(a, survivors, Similarity(s.main, query)) && AreMatches(b, survivors, Similarity(s.main, query))
    && (forall i | 0 <= i < |a| && |s.main[a[i].0].vector| == |query| :: a[i].1 == Dot(s.main[a[i].0].vector, query))
    && (forall i | 0 <= i < |b| && |s.main[b[i].0].vector| == |query| :: b[i].1 == Dot(s.main[b[i].0].vector, query))
  }

  /** In a mirrored store both searches agree up to ties exactly when the last window held enough matches. */
  lemma StoreSearchesAgree(s: State, model: string, dim: nat, space: nat, kind: Kind, statuses: set<nat>, query: Vector,
                           order: seq<nat>, scan: seq<nat>, distance: nat -> real, k: nat)
    requires Mirror(s, model, dim) && Searchable(s, model, dim) && |query| == dim && Unit(query)
             && MeasuredBy(s.main, query, distance)
    requires Enumerates(order, IndexIds(s.sidecar.value.entries, space, kind))
             && Enumerates(scan, TableIds(s.main, space, kind))
    ensures var a, b := SearchSidecar(s.owners, statuses, order, distance, k),
                        SearchPython(s.owners, statuses, scan, Similarity(s.main, query), k);
            (EnoughFetched(s.owners, statuses, order, distance, k, TableIds(s.main, space, kind)) <==>
             |a| == |b| && forall i | 0 <= i < |a| :: a[i].1 == b[i].1)
    ensures var a, b := SearchSidecar(s.owners, statuses, order, distance, k),
                        SearchPython(s.owners, statuses, scan, Similarity(s.main, query), k);
            AreAnswers(s, space, kind, statuses, query, k, a, b)
    ensures statuses == {} ==> EnoughFetched(s.owners, statuses, order, distance, k, TableIds(s.main, space, kind))
  {
    var ids := TableIds(s.main, space, kind);
    assert IndexIds(s.sidecar.value.entries, space, kind) == ids;
    forall id | id in ids ensures distance(id) >= 0.0 && ToCosine(distance(id)) == Similarity(s.main, query)(id) {
      CosineIsDot(distance(id), s.main[id].vector, query);
    }
    SearchesAgree(s.owners, statuses, order, scan, ids, distance, Similarity(s.main, query), k);
    if statuses == {} { UnfilteredIsEnough(s.owners, order, distance, k, ids); }
  }

  /** The provider normalizes what it answers. */
  ghost predicate Normalized(answers: set<Answer>) {
    forall a | a in answers :: |a.vector| == a.dim && Unit(a.vector)
  }

  /** So in every steady run, once maintenance has seen to the index, the two searches agree in the same way. */
  lemma SteadySearchesAgree(events: seq<Event>, model: string, dim: nat, space: nat, kind: Kind, statuses: set<nat>,
        query: Vector, order: seq<nat>, scan: seq<nat>, distance: nat -> real, k: nat)
    requires SteadyRun(EMPTY, events, model, dim) && Normalized(Run(EMPTY, events).answers)
    requires |query| == dim && Unit(query) && MeasuredBy(Run(EMPTY, events).main, query, distance)
    requires Enumerates(order, TableIds(Run(EMPTY, events).main, space, kind))
    requires Enumerates(scan, TableIds(Run(EMPTY, events).main, space, kind))
    ensures var s := EnsureIndex(Run(EMPTY, events), model, dim, true);
            && Mirror(s, model, dim) && IndexIds(s.sidecar.value.entries, space, kind) == TableIds(s.main, space, kind)
            && var a, b := SearchSidecar(s.owners, statuses, order, distance, k),
                           SearchPython(s.owners, statuses, scan, Similarity(s.main, query), k);
            && (EnoughFetched(s.owners, statuses, order, distance, k, TableIds(s.main, space, kind)) <==>
                |a| == |b| && forall i | 0 <= i < |a| :: a[i].1 == b[i].1)
            && AreAnswers(s, space, kind, statuses, query, k, a, b)
  {
    EmptyIsSettled(model, dim);
    SteadyRunsMirror(EMPTY, events, model, dim);
    RunIsComputed(EMPTY, events);
    var s := EnsureIndex(Run(EMPTY, events), model, dim, true);
    SettledIsSearchable(Run(EMPTY, events), model, dim);
    assert IndexIds(s.sidecar.value.entries, space, kind) == TableIds(s.main, space, kind);
    StoreSearchesAgree(s, model, dim, space, kind, statuses, query, order, scan, distance, k);
  }

  lemma SettledIsSearchable(s: State, model: string, dim: nat)
    requires Settled(s, model, dim) && Computed(s) && Normalized(s.answers)
    ensures Searchable(s, model, dim)
  {
  }
}

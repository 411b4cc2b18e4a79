/** Reciprocal rank fusion over the reals, and the recall that fuses text and vector rankings by it. */
module RankFusion {
  import opened Sorting
  import opened Wrappers

  const RRF_K: nat := 60
  const RRF_CANDIDATE_K: nat := 20

  // ----- What an id scores

  function Weight(k: nat, rank: nat): real
    requires k > 0
  {
    1.0 / (k + rank) as real
  }

  /** What one ranking gives an id, for every place it has there. */
  function Share(k: nat, ranking: seq<nat>, id: nat): real
    requires k > 0
  {
    if ranking == [] then 0.0
    else Share(k, ranking[..|ranking| - 1], id) + if ranking[|ranking| - 1] == id then Weight(k, |ranking| - 1) else 0.0
  }

  function Score(k: nat, rankings: seq<seq<nat>>, id: nat): real
    requires k > 0
  {
    if rankings == [] then 0.0
    else Score(k, rankings[..|rankings| - 1], id) + Share(k, rankings[|rankings| - 1], id)
  }

  predicate Ranked(rankings: seq<seq<nat>>, id: nat) {
    exists i | 0 <= i < |rankings| :: id in rankings[i]
  }

  // ----- The tally

  /** The two dictionaries: `keys` is their insertion order, `first` counts up along it. */
  datatype Tally = Tally(keys: seq<nat>, scores: map<nat, real>, first: map<nat, nat>)

  function AddOne(t: Tally, weight: real, id: nat): Tally {
    var seen := if id in t.first then t else t.(keys := t.keys + [id], first := t.first[id := |t.keys|]);
    seen.(scores := seen.scores[id := (if id in t.scores then t.scores[id] else 0.0) + weight])
  }

  function AddRanking(t: Tally, k: nat, ranking: seq<nat>): Tally
    requires k > 0
  {
    if ranking == [] then t
    else AddOne(AddRanking(t, k, ranking[..|ranking| - 1]), Weight(k, |ranking| - 1), ranking[|ranking| - 1])
  }

  function AddAll(k: nat, rankings: seq<seq<nat>>): Tally
    requires k > 0
  {
    if rankings == [] then Tally([], map[], map[])
    else AddRanking(AddAll(k, rankings[..|rankings| - 1]), k, rankings[|rankings| - 1])
  }

  function ScoreOf(t: Tally, id: nat): real {
    if id in t.scores then t.scores[id] else 0.0
  }

  function FirstOf(t: Tally, id: nat): nat {
    if id in t.first then t.first[id] else 0
  }

  function Better(t: Tally): (nat, nat) -> bool {
    (a: nat, b: nat) =>
      || ScoreOf(t, a) > ScoreOf(t, b)
      || (ScoreOf(t, a) == ScoreOf(t, b) && FirstOf(t, a) <= FirstOf(t, b))
  }

  function Fused(k: nat, rankings: seq<seq<nat>>): seq<nat>
    requires k > 0
  {
    var t := AddAll(k, rankings);
    Sort(t.keys, Better(t))
  }

  /** The keys are distinct and numbered in order. */
  ghost predicate Numbered(t: Tally) {
    && Distinct(t.keys)
    && (forall id :: id in t.first <==> id in t.keys)
    && (forall id :: id in t.scores <==> id in t.keys)
    && (forall i | 0 <= i < |t.keys| :: t.first[t.keys[i]] == i)
  }

  lemma OneIsTallied(t: Tally, weight: real, id: nat)
    requires Numbered(t)
    ensures var t' := AddOne(t, weight, id);
            Numbered(t') && t.keys <= t'.keys && forall x :: x in t'.keys <==> x in t.keys || x == id
  {
  }

  lemma OneIsScored(t: Tally, weight: real, id: nat)
    ensures forall x :: ScoreOf(AddOne(t, weight, id), x) == ScoreOf(t, x) + if x == id then weight else 0.0
  {
  }

  lemma {:induction false} RankingIsTallied(t: Tally, k: nat, ranking: seq<nat>)
    requires k > 0 && Numbered(t)
    ensures Numbered(AddRanking(t, k, ranking)) && t.keys <= AddRanking(t, k, ranking).keys
    ensures forall id :: id in AddRanking(t, k, ranking).keys <==> id in t.keys || id in ranking
    ensures forall id :: ScoreOf(AddRanking(t, k, ranking), id) == ScoreOf(t, id) + Share(k, ranking, id)
  {
    if ranking != [] {
      var init, last := ranking[..|ranking| - 1], ranking[|ranking| - 1];
      assert ranking == init + [last];
      RankingIsTallied(t, k, init);
      OneIsTallied(AddRanking(t, k, init), Weight(k, |init|), last);
      OneIsScored(AddRanking(t, k, init), Weight(k, |init|), last);
    }
  }

  /** The tally holds every ranked id once, with its score. */
  lemma {:induction false} AllIsTallied(k: nat, rankings: seq<seq<nat>>)
    requires k > 0
    ensures Numbered(AddAll(k, rankings))
    ensures forall id :: id in AddAll(k, rankings).keys <==> Ranked(rankings, id)
    ensures forall id :: ScoreOf(AddAll(k, rankings), id) == Score(k, rankings, id)
  {
    if rankings != [] {
      var init, last := rankings[..|rankings| - 1], rankings[|rankings| - 1];
      AllIsTallied(k, init);
      RankingIsTallied(AddAll(k, init), k, last);
      forall id ensures Ranked(rankings, id) <==> Ranked(init, id) || id in last {
        if i :| 0 <= i < |init| && id in init[i] { assert id in rankings[i]; }
        if id in last { assert id in rankings[|rankings| - 1]; }
        if i :| 0 <= i < |rankings| && id in rankings[i] {
          assert i < |init| ==> id in init[i];
        }
      }
    }
  }

  lemma BetterIsPreorder(t: Tally)
    ensures TotalPreorder(Better(t))
  {
  }

  // ----- The order of first sight

  function Flat(rankings: seq<seq<nat>>): seq<nat> {
    if rankings == [] then [] else Flat(rankings[..|rankings| - 1]) + rankings[|rankings| - 1]
  }

  /** Where an id of the list stands for the first time. */
  function FirstPlace(list: seq<nat>, id: nat): (r: nat)
    ensures id in list ==> r < |list| && list[r] == id && id !in list[..r]
  {
    if list == [] then 0
    else if id in list[..|list| - 1] then FirstPlace(list[..|list| - 1], id)
    else |list| - 1
  }

  ghost predicate InOrderOfSight(keys: seq<nat>, list: seq<nat>) {
    && (forall id :: id in keys <==> id in list)
    && (forall i, j | 0 <= i < j < |keys| :: FirstPlace(list, keys[i]) < FirstPlace(list, keys[j]))
  }

  lemma KeysInOrder(keys: seq<nat>, list: seq<nat>, id: nat)
    requires InOrderOfSight(keys, list)
    ensures InOrderOfSight(if id in keys then keys else keys + [id], list + [id])
  {
    assert (list + [id])[..|list|] == list;
    assert forall x | x in list :: FirstPlace(list + [id], x) == FirstPlace(list, x);
  }

  lemma OneIsInOrder(t: Tally, weight: real, list: seq<nat>, id: nat)
    requires Numbered(t) && InOrderOfSight(t.keys, list)
    ensures Numbered(AddOne(t, weight, id)) && InOrderOfSight(AddOne(t, weight, id).keys, list + [id])
  {
    OneIsTallied(t, weight, id);
    KeysInOrder(t.keys, list, id);
  }

  lemma {:induction false} RankingIsInOrder(t: Tally, k: nat, ranking: seq<nat>, seen: seq<nat>)
    requires k > 0 && Numbered(t) && InOrderOfSight(t.keys, seen)
    ensures Numbered(AddRanking(t, k, ranking)) && InOrderOfSight(AddRanking(t, k, ranking).keys, seen + ranking)
  {
    if ranking == [] {
      assert seen + ranking == seen;
    } else {
      var init, last := ranking[..|ranking| - 1], ranking[|ranking| - 1];
      RankingIsInOrder(t, k, init, seen);
      OneIsInOrder(AddRanking(t, k, init), Weight(k, |init|), seen + init, last);
      assert seen + ranking == seen + init + [last];
    }
  }

  lemma {:induction false} AllIsInOrder(k: nat, rankings: seq<seq<nat>>)
    requires k > 0
    ensures InOrderOfSight(AddAll(k, rankings).keys, Flat(rankings))
  {
    if rankings != [] {
      var init, last := rankings[..|rankings| - 1], rankings[|rankings| - 1];
      AllIsTallied(k, init);
      AllIsInOrder(k, init);
      RankingIsInOrder(AddAll(k, init), k, last, Flat(init));
    }
  }

  /** A better score goes first; of two equal ones, the id that was seen first. */
  ghost predicate InOrder(k: nat, rankings: seq<seq<nat>>, a: nat, b: nat)
    requires k > 0
  {
    || Score(k, rankings, a) > Score(k, rankings, b)
    || (Score(k, rankings, a) == Score(k, rankings, b) && FirstPlace(Flat(rankings), a) < FirstPlace(Flat(rankings), b))
  }

  lemma NumberedLikeSeen(k: nat, rankings: seq<seq<nat>>, a: nat, b: nat)
    requires k > 0 && a in AddAll(k, rankings).keys && b in AddAll(k, rankings).keys && a != b
    ensures var t := AddAll(k, rankings);
            FirstOf(t, a) <= FirstOf(t, b) ==> FirstPlace(Flat(rankings), a) < FirstPlace(Flat(rankings), b)
  {
    var t := AddAll(k, rankings);
    AllIsTallied(k, rankings);
    AllIsInOrder(k, rankings);
    var i :| 0 <= i < |t.keys| && t.keys[i] == a;
    var j :| 0 <= j < |t.keys| && t.keys[j] == b;
    assert t.first[t.keys[i]] == i && t.first[t.keys[j]] == j;
  }

  /** The fused list is a duplicate-free list of all ranked ids, best score first and ties as first seen. */
  lemma FusedIsSorted(k: nat, rankings: seq<seq<nat>>)
    requires k > 0
    ensures Distinct(Fused(k, rankings))
    ensures forall id :: id in Fused(k, rankings) <==> Ranked(rankings, id)
    ensures forall i, j | 0 <= i < j < |Fused(k, rankings)| ::
              InOrder(k, rankings, Fused(k, rankings)[i], Fused(k, rankings)[j])
  {
    var t, fused := AddAll(k, rankings), Fused(k, rankings);
    AllIsTallied(k, rankings);
    BetterIsPreorder(t);
    SortIsSorted(t.keys, Better(t));
    SortIsPermutation(t.keys, Better(t));
    SortKeepsDistinct(t.keys, Better(t));
    forall i, j | 0 <= i < j < |fused| ensures InOrder(k, rankings, fused[i], fused[j]) {
      assert Better(t)(fused[i], fused[j]);
      assert fused[i] in t.keys && fused[j] in t.keys;
      NumberedLikeSeen(k, rankings, fused[i], fused[j]);
    }
  }

  ghost predicate Ahead(list: seq<nat>, a: nat, b: nat) {
    exists i, j :: 0 <= i < j < |list| && list[i] == a && list[j] == b
  }

  lemma HigherScoreIsAhead(k: nat, rankings: seq<seq<nat>>, a: nat, b: nat)
    requires k > 0 && Ranked(rankings, a) && Ranked(rankings, b) && Score(k, rankings, a) > Score(k, rankings, b)
    ensures Ahead(Fused(k, rankings), a, b)
  {
    FusedIsSorted(k, rankings);
    var list := Fused(k, rankings);
    var i :| 0 <= i < |list| && list[i] == a;
    var j :| 0 <= j < |list| && list[j] == b;
  }

  // ----- Arithmetic of the weights

  lemma WeightDrops(k: nat, i: nat, j: nat)
    requires k > 0 && i < j
    ensures Weight(k, i) > Weight(k, j) > 0.0
  {
    Reciprocal((k + i) as real, (k + j) as real);
  }

  lemma Reciprocal(x: real, y: real)
    requires 0.0 < x < y
    ensures 1.0 / x > 1.0 / y > 0.0
  {
    var u, v := 1.0 / x, 1.0 / y;
    assert u * x == 1.0 && v * y == 1.0;
    assert v * (y - x) > 0.0;
    assert (u - v) * x > 0.0;
  }

  lemma {:induction false} ShareOfAbsent(k: nat, ranking: seq<nat>, id: nat)
    requires k > 0 && id !in ranking
    ensures Share(k, ranking, id) == 0.0
  {
    if ranking != [] { ShareOfAbsent(k, ranking[..|ranking| - 1], id); }
  }

  lemma {:induction false} ShareOfPlace(k: nat, ranking: seq<nat>, rank: nat)
    requires k > 0 && Distinct(ranking) && rank < |ranking|
    ensures Share(k, ranking, ranking[rank]) == Weight(k, rank)
  {
    var init, last := ranking[..|ranking| - 1], ranking[|ranking| - 1];
    if rank == |ranking| - 1 {
      ShareOfAbsent(k, init, last);
    } else {
      ShareOfPlace(k, init, rank);
    }
  }

  // ----- One ranking, and empty ones

  /** One ranking fused with empty ones. */
  ghost predicate Lone(rankings: seq<seq<nat>>, m: nat) {
    m < |rankings| && forall i | 0 <= i < |rankings| && i != m :: rankings[i] == []
  }

  lemma {:induction false} LoneScore(k: nat, rankings: seq<seq<nat>>, m: nat, id: nat)
    requires k > 0 && Lone(rankings, m)
    ensures Score(k, rankings, id) == Share(k, rankings[m], id)
  {
    var init := rankings[..|rankings| - 1];
    if m == |rankings| - 1 {
      EmptyScore(k, init, id);
    } else {
      LoneScore(k, init, m, id);
    }
  }

  lemma {:induction false} EmptyScore(k: nat, rankings: seq<seq<nat>>, id: nat)
    requires k > 0 && forall i | 0 <= i < |rankings| :: rankings[i] == []
    ensures Score(k, rankings, id) == 0.0
  {
    if rankings != [] { EmptyScore(k, rankings[..|rankings| - 1], id); }
  }

  lemma TailElement(a: seq<nat>, b: seq<nat>, x: nat)
    requires a != [] && b != [] && a[0] == b[0] && Distinct(a) && forall y :: y in a <==> y in b
    ensures x in a[1..] ==> x in b[1..]
  {
    if x in a[1..] {
      var i :| 0 <= i < |a| - 1 && a[1..][i] == x;
      assert a[i + 1] == x && x in b;
      var j :| 0 <= j < |b| && b[j] == x;
      assert j > 0 && b[1..][j - 1] == x;
    }
  }

  /** Two lists with the same elements, in a strict order of the same kind, are the same list. */
  lemma {:induction false} StrictOrderIsUnique(a: seq<nat>, b: seq<nat>, score: nat -> real)
    requires forall x :: x in a <==> x in b
    requires Distinct(a) && Distinct(b)
    requires forall i, j | 0 <= i < j < |a| :: score(a[i]) >= score(a[j])
    requires forall i, j | 0 <= i < j < |b| :: score(b[i]) > score(b[j])
    ensures a == b
    decreases |a|
  {
    if a != [] { assert a[0] in b; }
    if b != [] {
      assert b[0] in a;
      var i :| 0 <= i < |b| && b[i] == a[0];
      var j :| 0 <= j < |a| && a[j] == b[0];
      assert a[0] == b[0];
      forall x ensures x in a[1..] <==> x in b[1..] {
        TailElement(a, b, x);
        TailElement(b, a, x);
      }
      StrictOrderIsUnique(a[1..], b[1..], score);
    }
  }

  /** A single ranking is handed back as it came: the fallback to text search alone changes nothing. */
  lemma LoneRankingUnchanged(k: nat, rankings: seq<seq<nat>>, m: nat)
    requires k > 0 && Lone(rankings, m) && Distinct(rankings[m])
    ensures Fused(k, rankings) == rankings[m]
  {
    FusedIsSorted(k, rankings);
    var list, ranking := Fused(k, rankings), rankings[m];
    forall id ensures id in list <==> id in ranking {
      if i :| 0 <= i < |rankings| && id in rankings[i] { assert i == m; }
    }
    var score: nat -> real := (id: nat) => Score(k, rankings, id);
    forall i: nat, j: nat | i < j < |ranking| ensures score(ranking[i]) > score(ranking[j]) {
      LoneScore(k, rankings, m, ranking[i]);
      LoneScore(k, rankings, m, ranking[j]);
      ShareOfPlace(k, ranking, i);
      ShareOfPlace(k, ranking, j);
      WeightDrops(k, i, j);
    }
    StrictOrderIsUnique(list, ranking, score);
  }

  // ----- Dominance

  /** Wherever `b` is ranked, `a` is ranked before it. */
  ghost predicate Dominates(rankings: seq<seq<nat>>, a: nat, b: nat) {
    forall m | 0 <= m < |rankings| && b in rankings[m] :: Ahead(rankings[m], a, b)
  }

  ghost predicate AllDistinct(rankings: seq<seq<nat>>) {
    forall m | 0 <= m < |rankings| :: Distinct(rankings[m])
  }

  lemma ShareDominates(k: nat, ranking: seq<nat>, a: nat, b: nat)
    requires k > 0 && Distinct(ranking) && (b in ranking ==> Ahead(ranking, a, b))
    ensures Share(k, ranking, a) >= Share(k, ranking, b) >= 0.0
    ensures b in ranking ==> Share(k, ranking, a) > Share(k, ranking, b)
  {
    if b in ranking {
      var i, j :| 0 <= i < j < |ranking| && ranking[i] == a && ranking[j] == b;
      ShareOfPlace(k, ranking, i);
      ShareOfPlace(k, ranking, j);
      WeightDrops(k, i, j);
    } else {
      ShareOfAbsent(k, ranking, b);
      ShareOfAny(k, ranking, a);
    }
  }

  lemma ShareOfAny(k: nat, ranking: seq<nat>, a: nat)
    requires k > 0 && Distinct(ranking)
    ensures 0.0 <= Share(k, ranking, a) <= Weight(k, 0)
    ensures a in ranking ==> Share(k, ranking, a) >= Weight(k, |ranking| - 1) > 0.0
  {
    if a in ranking {
      var i: nat :| i < |ranking| && ranking[i] == a;
      ShareOfPlace(k, ranking, i);
      if i > 0 { WeightDrops(k, 0, i); }
      if i < |ranking| - 1 { WeightDrops(k, i, |ranking| - 1); }
      WeightDrops(k, |ranking| - 1, |ranking|);
    } else {
      ShareOfAbsent(k, ranking, a);
      WeightDrops(k, 0, 1);
    }
  }

  lemma {:induction false} ScoreDominates(k: nat, rankings: seq<seq<nat>>, a: nat, b: nat)
    requires k > 0 && AllDistinct(rankings) && Dominates(rankings, a, b)
    ensures Score(k, rankings, a) >= Score(k, rankings, b)
    ensures Ranked(rankings, b) ==> Score(k, rankings, a) > Score(k, rankings, b)
  {
    if rankings != [] {
      var n := |rankings| - 1;
      assert forall m | 0 <= m < n :: rankings[..n][m] == rankings[m];
      ScoreDominates(k, rankings[..n], a, b);
      ShareDominates(k, rankings[n], a, b);
      if Ranked(rankings, b) {
        var m :| 0 <= m < |rankings| && b in rankings[m];
        assert m < n ==> b in rankings[..n][m];
      }
    }
  }

  /** An id that is ahead of another in every ranking that holds the other stays ahead. */
  lemma DominantStaysAhead(k: nat, rankings: seq<seq<nat>>, a: nat, b: nat)
    requires k > 0 && AllDistinct(rankings) && Ranked(rankings, b) && Dominates(rankings, a, b)
    ensures Ahead(Fused(k, rankings), a, b)
  {
    var m :| 0 <= m < |rankings| && b in rankings[m];
    assert a in rankings[m];
    ScoreDominates(k, rankings, a, b);
    HigherScoreIsAhead(k, rankings, a, b);
  }

  // ----- Agreement of two rankings beats one

  lemma TwoScore(k: nat, r: seq<nat>, s: seq<nat>, id: nat)
    requires k > 0
    ensures Score(k, [r, s], id) == Share(k, r, id) + Share(k, s, id)
  {
    assert [r, s][..1] == [r] && [r][..0] == [];
    assert Score(k, [r], id) == Share(k, r, id);
  }

  lemma HalfWeight(k: nat)
    requires k > 0
    ensures Weight(k, k - 1) + Weight(k, k - 1) > Weight(k, 0)
    ensures Weight(k, k) + Weight(k, k) == Weight(k, 0)
  {
    var x := k as real;
    var w, half, almost := 1.0 / x, 1.0 / (x + x), 1.0 / (x + x - 1.0);
    assert w * x == 1.0 && half * (x + x) == 1.0;
    assert (half + half - w) * x == 0.0;
    Reciprocal(x + x - 1.0, x + x);
  }

  /** With no more entries than the damping constant, an id in both rankings outranks any id in only one. */
  lemma BothOutranksOne(k: nat, r: seq<nat>, s: seq<nat>, a: nat, b: nat)
    requires k > 0 && Distinct(r) && Distinct(s) && |r| <= k && |s| <= k
    requires a in r && a in s && (b in r || b in s) && !(b in r && b in s)
    ensures Ahead(Fused(k, [r, s]), a, b)
  {
    TwoScore(k, r, s, a);
    TwoScore(k, r, s, b);
    ShareOfAny(k, r, a);
    ShareOfAny(k, s, a);
    if |r| < k { WeightDrops(k, |r| - 1, k - 1); }
    if |s| < k { WeightDrops(k, |s| - 1, k - 1); }
    if b in r {
      ShareOfAny(k, r, b);
      ShareOfAbsent(k, s, b);
    } else {
      ShareOfAny(k, s, b);
      ShareOfAbsent(k, r, b);
    }
    HalfWeight(k);
    assert [r, s][0] == r && [r, s][1] == s;
    HigherScoreIsAhead(k, [r, s], a, b);
  }

  lemma {:induction false} FirstKey(k: nat, ranking: seq<nat>)
    requires k > 0 && ranking != []
    ensures AddRanking(Tally([], map[], map[]), k, ranking).keys != []
    ensures AddRanking(Tally([], map[], map[]), k, ranking).keys[0] == ranking[0]
  {
    var empty := Tally([], map[], map[]);
    var init := ranking[..|ranking| - 1];
    RankingIsTallied(empty, k, init);
    OneIsTallied(AddRanking(empty, k, init), Weight(k, |init|), ranking[|init|]);
    if init != [] { FirstKey(k, init); }
  }

  /** One entry more and it is a tie: last in both rankings scores no more than first in one, which was seen first. */
  lemma OneEntryMoreLoses(k: nat, r: seq<nat>, s: seq<nat>, a: nat, b: nat)
    requires k > 0 && Distinct(r) && Distinct(s) && |r| == k + 1 && |s| == k + 1
    requires r[0] == b && r[k] == a && s[k] == a && b !in s
    ensures Ahead(Fused(k, [r, s]), b, a)
  {
    TwoScore(k, r, s, a);
    TwoScore(k, r, s, b);
    ShareOfPlace(k, r, k);
    ShareOfPlace(k, s, k);
    ShareOfPlace(k, r, 0);
    ShareOfAbsent(k, s, b);
    HalfWeight(k);
    SeenFirstIsAhead(k, r, s, a, b);
  }

  lemma SeenFirstIsAhead(k: nat, r: seq<nat>, s: seq<nat>, a: nat, b: nat)
    requires k > 0 && r != [] && r[0] == b && a in r && a != b && Score(k, [r, s], a) == Score(k, [r, s], b)
    ensures Ahead(Fused(k, [r, s]), b, a)
  {
    var t := AddAll(k, [r, s]);
    FirstKeyOfTwo(k, r, s);
    AllIsTallied(k, [r, s]);
    assert [r, s][0] == r && Ranked([r, s], a) && Ranked([r, s], b);
    BetterIsPreorder(t);
    SortIsSorted(t.keys, Better(t));
    SortIsPermutation(t.keys, Better(t));
    var list := Fused(k, [r, s]);
    var i :| 0 <= i < |list| && list[i] == a;
    var j :| 0 <= j < |list| && list[j] == b;
    assert !Better(t)(a, b);
  }

  lemma FirstKeyOfTwo(k: nat, r: seq<nat>, s: seq<nat>)
    requires k > 0 && r != []
    ensures AddAll(k, [r, s]).keys != [] && AddAll(k, [r, s]).keys[0] == r[0]
  {
    var empty := Tally([], map[], map[]);
    assert [r, s][..1] == [r] && [r][..0] == [];
    FirstKey(k, r);
    RankingIsTallied(empty, k, r);
    assert AddAll(k, [r]) == AddRanking(empty, k, r);
    RankingIsTallied(AddAll(k, [r]), k, s);
  }

  // ----- The loops

  /** One ranking's turn in the loop over the rankings. */
  method CountRanking(start: Tally, ranking: seq<nat>, k: nat) returns (t: Tally)
    requires k > 0
    ensures t == AddRanking(start, k, ranking)
  {
    var keys: seq<nat>, scores: map<nat, real>, first: map<nat, nat> := start.keys, start.scores, start.first;
    for rank := 0 to |ranking|
      invariant Tally(keys, scores, first) == AddRanking(start, k, ranking[..rank])
    {
      assert ranking[..rank + 1][..rank] == ranking[..rank];
      var id := ranking[rank];
      if id !in first {
        keys, first := keys + [id], first[id := |keys|];
      }
      scores := scores[id := (if id in scores then scores[id] else 0.0) + Weight(k, rank)];
    }
    assert ranking[..|ranking|] == ranking;
    t := Tally(keys, scores, first);
  }

  method ReciprocalRankFusion(rankings: seq<seq<nat>>, k: nat) returns (fused: seq<nat>)
    requires k > 0
    ensures fused == Fused(k, rankings)
    ensures Distinct(fused) && forall id :: id in fused <==> Ranked(rankings, id)
  {
    var t := Tally([], map[], map[]);
    for m := 0 to |rankings|
      invariant t == AddAll(k, rankings[..m])
    {
      assert rankings[..m + 1][..m] == rankings[..m];
      t := CountRanking(t, rankings[m], k);
    }
    assert rankings[..|rankings|] == rankings;
    FusedIsSorted(k, rankings);
    fused := Sort(t.keys, Better(t));
  }

  // ----- Recall

  function Within(ids: seq<nat>, allowed: set<nat>): (r: seq<nat>)
    ensures forall id :: id in r <==> id in ids && id in allowed
  {
    if ids == [] then []
    else
      var before, last := Within(ids[..|ids| - 1], allowed), ids[|ids| - 1];
      if last in allowed then before + [last] else before
  }

  lemma {:induction false} WithinDistinct(ids: seq<nat>, allowed: set<nat>)
    requires Distinct(ids)
    ensures Distinct(Within(ids, allowed)) && |Within(ids, allowed)| <= |ids|
  {
    if ids != [] { WithinDistinct(ids[..|ids| - 1], allowed); }
  }

  /** What is kept is in the order it came in. */
  lemma {:induction false} WithinKeepsOrder(ids: seq<nat>, allowed: set<nat>, a: nat, b: nat)
    requires Ahead(ids, a, b) && a in allowed && b in allowed
    ensures Ahead(Within(ids, allowed), a, b)
  {
    var init, last := ids[..|ids| - 1], ids[|ids| - 1];
    var before, kept := Within(init, allowed), Within(ids, allowed);
    var i, j :| 0 <= i < j < |ids| && ids[i] == a && ids[j] == b;
    assert init[i] == a;
    if j < |init| {
      assert init[j] == b;
      WithinKeepsOrder(init, allowed, a, b);
      var k, l :| 0 <= k < l < |before| && before[k] == a && before[l] == b;
      assert kept[k] == a && kept[l] == b;
    } else {
      assert a in before;
      var k :| 0 <= k < |before| && before[k] == a;
      assert kept[k] == a && kept[|before|] == b;
    }
  }

  function Min(a: nat, b: nat): nat {
    if a < b then a else b
  }

  function Cut(ids: seq<nat>, limit: nat): (r: seq<nat>)
    ensures r <= ids && |r| == Min(|ids|, limit)
  {
    if |ids| <= limit then ids else ids[..limit]
  }

  // ----- What recall promises, said of the text candidates and the vector hits

  predicate IsFound(text: seq<nat>, hits: seq<nat>, inScope: set<nat>, id: nat) {
    id in text || (id in hits && id in inScope)
  }

  /** Found by text and by vector, while the other was found by one of them only. */
  ghost predicate FoundTwice(text: seq<nat>, hits: seq<nat>, inScope: set<nat>, a: nat, b: nat) {
    && a in text && a in hits && a in inScope && IsFound(text, hits, inScope, b)
    && !(b in text && b in hits && b in inScope)
  }

  /** Found, and found first, by whatever found the other. */
  ghost predicate FoundFirst(text: seq<nat>, hits: seq<nat>, inScope: set<nat>, a: nat, b: nat) {
    && (b in text ==> Ahead(text, a, b))
    && (b in hits && b in inScope ==> a in inScope && Ahead(hits, a, b))
  }

  /** Nothing found is left out while there is room, and the order respects both searches. */
  ghost predicate IsRecalled(text: seq<nat>, hits: seq<nat>, inScope: set<nat>, limit: nat, ids: seq<nat>) {
    && Distinct(ids) && |ids| <= limit
    && (forall id | id in ids :: IsFound(text, hits, inScope, id))
    && (forall id | IsFound(text, hits, inScope, id) && id !in ids :: |ids| == limit)
    && (forall a, b | b in ids && FoundTwice(text, hits, inScope, a, b) :: Ahead(ids, a, b))
    && (forall a, b | b in ids && FoundFirst(text, hits, inScope, a, b) :: Ahead(ids, a, b))
  }

  lemma RankedTwo(text: seq<nat>, hits: seq<nat>, inScope: set<nat>, id: nat)
    ensures Ranked([text, Within(hits, inScope)], id) <==> IsFound(text, hits, inScope, id)
  {
    var rankings := [text, Within(hits, inScope)];
    assert rankings[0] == text && rankings[1] == Within(hits, inScope);
  }

  lemma FoundTwiceIsAhead(text: seq<nat>, hits: seq<nat>, inScope: set<nat>, a: nat, b: nat)
    requires Distinct(text) && Distinct(hits) && |text| <= RRF_K && |hits| <= RRF_K
    requires FoundTwice(text, hits, inScope, a, b)
    ensures Ahead(Fused(RRF_K, [text, Within(hits, inScope)]), a, b)
  {
    WithinDistinct(hits, inScope);
    BothOutranksOne(RRF_K, text, Within(hits, inScope), a, b);
  }

  lemma FoundFirstIsAhead(text: seq<nat>, hits: seq<nat>, inScope: set<nat>, a: nat, b: nat)
    requires Distinct(text) && Distinct(hits) && IsFound(text, hits, inScope, b)
    requires FoundFirst(text, hits, inScope, a, b)
    ensures Ahead(Fused(RRF_K, [text, Within(hits, inScope)]), a, b)
  {
    var vectorIds := Within(hits, inScope);
    var rankings := [text, vectorIds];
    WithinDistinct(hits, inScope);
    RankedTwo(text, hits, inScope, b);
    if b in vectorIds { WithinKeepsOrder(hits, inScope, a, b); }
    forall m | 0 <= m < 2 && b in rankings[m] ensures Ahead(rankings[m], a, b) {
      assert rankings[0] == text && rankings[1] == vectorIds;
    }
    DominantStaysAhead(RRF_K, rankings, a, b);
  }

  lemma FusionRecalls(text: seq<nat>, hits: seq<nat>, inScope: set<nat>, limit: nat)
    requires Distinct(text) && Distinct(hits) && |text| <= RRF_K && |hits| <= RRF_K
    ensures IsRecalled(text, hits, inScope, limit, Cut(Fused(RRF_K, [text, Within(hits, inScope)]), limit))
  {
    var rankings := [text, Within(hits, inScope)];
    var fused := Fused(RRF_K, rankings);
    var ids := Cut(fused, limit);
    FusedIsSorted(RRF_K, rankings);
    forall id ensures id in fused <==> IsFound(text, hits, inScope, id) { RankedTwo(text, hits, inScope, id); }
    forall a, b | b in ids && FoundTwice(text, hits, inScope, a, b) ensures Ahead(ids, a, b) {
      FoundTwiceIsAhead(text, hits, inScope, a, b);
      CutKeepsAhead(fused, limit, a, b);
    }
    forall a, b | b in ids && FoundFirst(text, hits, inScope, a, b) ensures Ahead(ids, a, b) {
      FoundFirstIsAhead(text, hits, inScope, a, b);
      CutKeepsAhead(fused, limit, a, b);
    }
  }

  lemma NotBehind(ids: seq<nat>, i: nat, j: nat)
    requires Distinct(ids) && i < j < |ids|
    ensures !Ahead(ids, ids[j], ids[i])
  {
  }

  /** Without text candidates the hits in scope come out in their order. */
  lemma HitsInOrder(hits: seq<nat>, inScope: set<nat>, limit: nat, ids: seq<nat>)
    requires Distinct(hits) && IsRecalled([], hits, inScope, limit, ids)
    ensures forall i, j | 0 <= i < j < |ids| :: Ahead(hits, ids[i], ids[j])
  {
    forall i, j | 0 <= i < j < |ids| ensures Ahead(hits, ids[i], ids[j]) {
      assert ids[i] in ids && ids[j] in ids;
      var k :| 0 <= k < |hits| && hits[k] == ids[i];
      var l :| 0 <= l < |hits| && hits[l] == ids[j];
      if l < k {
        assert FoundFirst([], hits, inScope, ids[j], ids[i]);
        NotBehind(ids, i, j);
      }
    }
  }

  /**
    Text recall alone when there is no query vector; otherwise the first candidates of both kinds, fused.
    `matches` are the text matches in scope, best first, and `inScope` is what the filters admit of the hits.
   */
  method RecallMemories(matches: seq<nat>, hits: Option<seq<nat>>, inScope: set<nat>, limit: nat)
    returns (ids: seq<nat>)
    requires Distinct(matches) && forall id | id in matches :: id in inScope
    requires hits.Some? ==> Distinct(hits.value) && |hits.value| <= RRF_CANDIDATE_K
    ensures hits.None? || hits.value == [] ==> ids <= matches
    ensures hits.None? ==> |ids| == Min(|matches|, limit)
    ensures hits.Some? ==>
        var text := matches[..Min(|matches|, 20)];
        && IsRecalled(text, hits.value, inScope, limit, ids)
        && ids == Cut(Fused(60, [text, Within(hits.value, inScope)]), limit)
    ensures hits.Some? && matches == [] ==> forall i, j | 0 <= i < j < |ids| :: Ahead(hits.value, ids[i], ids[j])
  {
    var textIds: seq<nat> := Cut(matches, if hits.Some? then RRF_CANDIDATE_K else limit);
    if hits.None? {
      return textIds;
    }
    var vectorIds: seq<nat> := Within(hits.value, inScope);
    var fused := ReciprocalRankFusion([textIds, vectorIds], RRF_K);
    ids := Cut(fused, limit);
    FusionRecalls(textIds, hits.value, inScope, limit);
    assert textIds == matches[..Min(|matches|, 20)];
    if hits.value == [] {
      assert [textIds, vectorIds][0] == textIds && [textIds, vectorIds][1] == vectorIds;
      LoneRankingUnchanged(RRF_K, [textIds, vectorIds], 0);
    }
    if matches == [] { HitsInOrder(hits.value, inScope, limit, ids); }
  }

  lemma CutKeepsAhead(list: seq<nat>, limit: nat, a: nat, b: nat)
    requires Distinct(list) && Ahead(list, a, b) && b in Cut(list, limit)
    ensures Ahead(Cut(list, limit), a, b)
  {
    var i, j :| 0 <= i < j < |list| && list[i] == a && list[j] == b;
    var l :| 0 <= l < |Cut(list, limit)| && Cut(list, limit)[l] == b;
    assert l == j;
    assert Cut(list, limit)[i] == a;
  }
}

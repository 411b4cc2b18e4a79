/**
  Finding people by their aliases in a text: ambiguous aliases are dropped, and of overlapping matches the
  longest are taken first. Where an alias occurs in the text is a given list of positions.
 */
module AliasMatch {
  import opened Sorting

  /** An alias in its folded form, and the active person who has it. */
  datatype AliasRow = AliasRow(alias: string, person: nat)

  datatype Candidate = Candidate(length: nat, start: nat, person: nat)

  // ----- Candidates

  function PeopleWith(rows: seq<AliasRow>, alias: string): set<nat> {
    set row | row in rows && row.alias == alias :: row.person
  }

  /** The aliases in the order they first come. */
  function Aliases(rows: seq<AliasRow>): (r: seq<string>)
    ensures forall alias :: alias in r <==> exists i :: 0 <= i < |rows| && rows[i].alias == alias
  {
    if rows == [] then []
    else
      var last := |rows| - 1;
      var before := Aliases(rows[..last]);
      assert forall alias :: alias in before <==> exists i :: 0 <= i < last && rows[i].alias == alias;
      if rows[last].alias in before then before else before + [rows[last].alias]
  }

  ghost function Owner(people: set<nat>): nat
    requires |people| == 1
  {
    assert people != {};
    var p :| p in people; p
  }

  ghost predicate Usable(rows: seq<AliasRow>, alias: string) {
    alias != "" && |PeopleWith(rows, alias)| == 1
  }

  function At(length: nat, person: nat, starts: seq<nat>): seq<Candidate> {
    seq(|starts|, i requires 0 <= i < |starts| => Candidate(length, starts[i], person))
  }

  ghost function Found(rows: seq<AliasRow>, occurrences: string -> seq<nat>, aliases: seq<string>): seq<Candidate> {
    if aliases == [] then []
    else
      var last := aliases[|aliases| - 1];
      Found(rows, occurrences, aliases[..|aliases| - 1])
      + if Usable(rows, last) then At(|last|, Owner(PeopleWith(rows, last)), occurrences(last)) else []
  }

  ghost function Candidates(rows: seq<AliasRow>, occurrences: string -> seq<nat>): seq<Candidate> {
    Found(rows, occurrences, Aliases(rows))
  }

  ghost predicate OnlyOneHas(rows: seq<AliasRow>, alias: string, person: nat) {
    && (exists i :: 0 <= i < |rows| && rows[i].alias == alias)
    && (forall i | 0 <= i < |rows| && rows[i].alias == alias :: rows[i].person == person)
  }

  /** What a candidate stands for: an alias that exactly one person has, at a place where it occurs. */
  ghost predicate StandsFor(rows: seq<AliasRow>, occurrences: string -> seq<nat>, c: Candidate, alias: string) {
    alias != "" && OnlyOneHas(rows, alias, c.person) && |alias| == c.length && c.start in occurrences(alias)
  }

  lemma OnlyOneIsInPeople(rows: seq<AliasRow>, alias: string, person: nat)
    ensures OnlyOneHas(rows, alias, person) <==> PeopleWith(rows, alias) == {person}
  {
    if PeopleWith(rows, alias) == {person} {
      assert person in PeopleWith(rows, alias);
      forall i | 0 <= i < |rows| && rows[i].alias == alias ensures rows[i].person == person {
        assert rows[i].person in PeopleWith(rows, alias);
      }
    }
    if OnlyOneHas(rows, alias, person) {
      var i :| 0 <= i < |rows| && rows[i].alias == alias;
      assert rows[i] in rows && person in PeopleWith(rows, alias);
    }
  }

  lemma {:induction false} FoundAre(rows: seq<AliasRow>, occurrences: string -> seq<nat>, aliases: seq<string>,
        c: Candidate)
    ensures c in Found(rows, occurrences, aliases) <==>
              exists alias :: alias in aliases && StandsFor(rows, occurrences, c, alias)
  {
    if aliases != [] {
      var init, last := aliases[..|aliases| - 1], aliases[|aliases| - 1];
      assert aliases == init + [last];
      FoundAre(rows, occurrences, init, c);
      OnlyOneIsInPeople(rows, last, c.person);
      if Usable(rows, last) {
        OnlyOwner(PeopleWith(rows, last), c.person);
        var here := At(|last|, Owner(PeopleWith(rows, last)), occurrences(last));
        if c in here {
          var i :| 0 <= i < |here| && here[i] == c;
        }
        if StandsFor(rows, occurrences, c, last) {
          var i :| 0 <= i < |occurrences(last)| && occurrences(last)[i] == c.start;
          assert here[i] == c;
        }
      }
    }
  }

  lemma OnlyOwner(people: set<nat>, p: nat)
    requires |people| == 1
    ensures people == {Owner(people)}
    ensures p in people <==> p == Owner(people)
  {
    var owner := Owner(people);
    assert |people - {owner}| == 0;
  }

  /** The candidates are the matches of unambiguous aliases, and all of them. */
  lemma CandidatesAre(rows: seq<AliasRow>, occurrences: string -> seq<nat>, c: Candidate)
    ensures c in Candidates(rows, occurrences) <==> exists alias :: StandsFor(rows, occurrences, c, alias)
  {
    FoundAre(rows, occurrences, Aliases(rows), c);
    if alias :| StandsFor(rows, occurrences, c, alias) {
      assert alias in Aliases(rows);
    }
  }

  // ----- The selection

  predicate Overlap(a: Candidate, b: Candidate) {
    a.start < b.start + b.length && a.start + a.length > b.start
  }

  /** The match covers this place of the text. */
  ghost predicate Covers(c: Candidate, place: nat) {
    c.start <= place < c.start + c.length
  }

  ghost predicate ShareAPlace(a: Candidate, b: Candidate) {
    exists place: nat :: Covers(a, place) && Covers(b, place)
  }

  /** The test on the ends finds exactly the matches that have a place of the text in common. */
  lemma OverlapSharesAPlace(a: Candidate, b: Candidate)
    requires a.length > 0 && b.length > 0
    ensures Overlap(a, b) <==> ShareAPlace(a, b)
  {
    if Overlap(a, b) {
      var place := if a.start < b.start then b.start else a.start;
      assert Covers(a, place) && Covers(b, place);
    }
  }

  predicate Free(chosen: seq<Candidate>, c: Candidate) {
    forall i | 0 <= i < |chosen| :: !Overlap(c, chosen[i])
  }

  /** Takes what does not overlap an earlier choice. */
  function Greedy(sorted: seq<Candidate>): seq<Candidate> {
    if sorted == [] then []
    else
      var chosen, last := Greedy(sorted[..|sorted| - 1]), sorted[|sorted| - 1];
      if Free(chosen, last) then chosen + [last] else chosen
  }

  function LongestFirst(): (Candidate, Candidate) -> bool {
    (a: Candidate, b: Candidate) => a.length > b.length || (a.length == b.length && a.start <= b.start)
  }

  function Select(candidates: seq<Candidate>): seq<Candidate> {
    Greedy(Sort(candidates, LongestFirst()))
  }

  ghost predicate Disjoint(chosen: seq<Candidate>) {
    forall i, j | 0 <= i < j < |chosen| :: !Overlap(chosen[i], chosen[j])
  }

  ghost predicate Blocked(chosen: seq<Candidate>, c: Candidate) {
    exists i :: 0 <= i < |chosen| && Overlap(c, chosen[i]) && LongestFirst()(chosen[i], c)
  }

  lemma {:induction false} GreedyPacks(sorted: seq<Candidate>)
    requires Sorted(sorted, LongestFirst())
    ensures Disjoint(Greedy(sorted)) && forall c | c in Greedy(sorted) :: c in sorted
    ensures forall c | c in sorted && c !in Greedy(sorted) :: Blocked(Greedy(sorted), c)
  {
    if sorted != [] {
      var init, last := sorted[..|sorted| - 1], sorted[|sorted| - 1];
      assert sorted == init + [last];
      GreedyPacks(init);
      var before, chosen := Greedy(init), Greedy(sorted);
      forall c | c in sorted && c !in chosen ensures Blocked(chosen, c) {
        if c in init && c !in before {
          var i :| 0 <= i < |before| && Overlap(c, before[i]) && LongestFirst()(before[i], c);
          assert chosen[i] == before[i];
        } else {
          var i :| 0 <= i < |before| && Overlap(last, before[i]);
          assert before[i] in init;
          var j :| 0 <= j < |init| && init[j] == before[i];
          assert LongestFirst()(sorted[j], sorted[|sorted| - 1]);
          assert chosen[i] == before[i];
        }
      }
    }
  }

  /** No alias is empty. */
  ghost predicate NoneEmpty(candidates: seq<Candidate>) {
    forall c | c in candidates :: c.length > 0
  }

  ghost predicate NoPlaceTwice(chosen: seq<Candidate>) {
    forall i, j | 0 <= i < j < |chosen| :: !ShareAPlace(chosen[i], chosen[j])
  }

  /** A chosen match is in the way, one that is longer, or as long and not later. */
  ghost predicate GivesWay(chosen: seq<Candidate>, c: Candidate) {
    exists d :: d in chosen && ShareAPlace(c, d)
                && (d.length > c.length || (d.length == c.length && d.start <= c.start))
  }

  /** No place is in two chosen matches, and what is left out shares a place with a choice at least as long. */
  lemma SelectionIsMaximal(candidates: seq<Candidate>)
    ensures Disjoint(Select(candidates))
    ensures forall c | c in Select(candidates) :: c in candidates
    ensures forall c | c in candidates && c !in Select(candidates) :: Blocked(Select(candidates), c)
    ensures NoneEmpty(candidates) ==> NoPlaceTwice(Select(candidates))
    ensures NoneEmpty(candidates) ==>
              forall c | c in candidates && c !in Select(candidates) :: GivesWay(Select(candidates), c)
  {
    var le, chosen := LongestFirst(), Select(candidates);
    SortIsSorted(candidates, le);
    SortIsPermutation(candidates, le);
    GreedyPacks(Sort(candidates, le));
    if NoneEmpty(candidates) {
      forall i, j | 0 <= i < j < |chosen| ensures !ShareAPlace(chosen[i], chosen[j]) {
        assert chosen[i] in chosen && chosen[j] in chosen;
        OverlapSharesAPlace(chosen[i], chosen[j]);
      }
      forall c | c in candidates && c !in chosen ensures GivesWay(chosen, c) {
        var i :| 0 <= i < |chosen| && Overlap(c, chosen[i]) && le(chosen[i], c);
        assert chosen[i] in chosen;
        OverlapSharesAPlace(c, chosen[i]);
      }
    }
  }

  // ----- The selection is the only one of its kind

  ghost predicate IsPacking(sorted: seq<Candidate>, p: set<nat>) {
    && (forall i | i in p :: i < |sorted|)
    && (forall i, j | i in p && j in p && i < j :: !Overlap(sorted[j], sorted[i]))
    && (forall j: nat | j < |sorted| && j !in p :: exists i: nat :: i in p && i < j && Overlap(sorted[j], sorted[i]))
  }

  lemma {:induction false} PrefixPacking(sorted: seq<Candidate>, p: set<nat>, n: nat)
    requires IsPacking(sorted, p) && n <= |sorted|
    ensures forall c :: c in Greedy(sorted[..n]) <==> exists i: nat :: i in p && i < n && sorted[i] == c
    decreases n
  {
    if n > 0 {
      var m := n - 1;
      PrefixPacking(sorted, p, m);
      assert sorted[..n][..m] == sorted[..m];
      var before := Greedy(sorted[..m]);
      if m in p {
        forall i | 0 <= i < |before| ensures !Overlap(sorted[m], before[i]) {
          assert before[i] in before;
          var k: nat :| k in p && k < m && sorted[k] == before[i];
        }
      } else {
        var k: nat :| k in p && k < m && Overlap(sorted[m], sorted[k]);
        assert sorted[k] in before;
      }
      forall c ensures c in Greedy(sorted[..n]) <==> exists i: nat :: i in p && i < n && sorted[i] == c {
        if m in p && c == sorted[m] { assert m in p && m < n; }
      }
    }
  }

  /** Any longest-first packing of the candidates holds exactly what the selection holds. */
  lemma SelectionIsUnique(candidates: seq<Candidate>, p: set<nat>)
    requires IsPacking(Sort(candidates, LongestFirst()), p)
    ensures forall c ::
              c in Select(candidates) <==>
                exists i: nat :: i in p && i < |candidates| && Sort(candidates, LongestFirst())[i] == c
  {
    var sorted := Sort(candidates, LongestFirst());
    SortIsPermutation(candidates, LongestFirst());
    PrefixPacking(sorted, p, |sorted|);
    assert sorted[..|sorted|] == sorted;
  }

  // ----- The people, in order

  function ByStart(): (Candidate, Candidate) -> bool {
    (a: Candidate, b: Candidate) => a.start < b.start || (a.start == b.start && a.person <= b.person)
  }

  function FirstOfEach(chosen: seq<Candidate>): (r: seq<nat>)
    ensures Distinct(r) && forall p :: p in r <==> exists i :: 0 <= i < |chosen| && chosen[i].person == p
  {
    if chosen == [] then []
    else
      var last := |chosen| - 1;
      var before := FirstOfEach(chosen[..last]);
      assert forall p :: p in before <==> exists i :: 0 <= i < last && chosen[i].person == p;
      if chosen[last].person in before then before else before + [chosen[last].person]
  }

  /** `start` is where a person is first chosen. */
  ghost predicate FirstChosenAt(chosen: seq<Candidate>, person: nat, start: nat) {
    && (exists i :: 0 <= i < |chosen| && chosen[i].person == person && chosen[i].start == start)
    && (forall i | 0 <= i < |chosen| && chosen[i].person == person :: chosen[i].start >= start)
  }

  lemma StillFirst(chosen: seq<Candidate>, person: nat, start: nat)
    requires chosen != [] && Sorted(chosen, ByStart()) && FirstChosenAt(chosen[..|chosen| - 1], person, start)
    ensures FirstChosenAt(chosen, person, start)
  {
    var init := chosen[..|chosen| - 1];
    var i :| 0 <= i < |init| && init[i].person == person && init[i].start == start;
    assert chosen[i] == init[i] && ByStart()(chosen[i], chosen[|chosen| - 1]);
    assert forall k | 0 <= k < |init| :: chosen[k] == init[k];
  }

  lemma {:induction false} FirstPlace(chosen: seq<Candidate>, person: nat) returns (start: nat)
    requires Sorted(chosen, ByStart()) && person in FirstOfEach(chosen)
    ensures FirstChosenAt(chosen, person, start)
  {
    var init := chosen[..|chosen| - 1];
    if person in FirstOfEach(init) {
      start := FirstPlace(init, person);
      StillFirst(chosen, person, start);
    } else {
      start := chosen[|chosen| - 1].start;
      assert forall i | 0 <= i < |init| :: chosen[i] == init[i] && init[i].person != person;
    }
  }

  lemma {:induction false} EarlierPerson(chosen: seq<Candidate>, i: nat, j: nat, k: nat) returns (l: nat)
    requires i < j < |FirstOfEach(chosen)| && k < |chosen| && chosen[k].person == FirstOfEach(chosen)[j]
    ensures l < k && chosen[l].person == FirstOfEach(chosen)[i]
  {
    var last := |chosen| - 1;
    var init, before := chosen[..last], FirstOfEach(chosen[..last]);
    if j < |before| {
      assert before[j] in before;
      var m: nat :| m < |init| && init[m].person == before[j];
      l := EarlierPerson(init, i, j, if k < last then k else m);
    } else {
      assert before[i] in before;
      var m: nat :| m < |init| && init[m].person == before[i];
      l := m;
    }
  }

  /** People come out in the order of their first chosen places. */
  lemma PeopleInOrder(chosen: seq<Candidate>, i: nat, j: nat) returns (a: nat, b: nat)
    requires Sorted(chosen, ByStart()) && i < j < |FirstOfEach(chosen)|
    ensures FirstChosenAt(chosen, FirstOfEach(chosen)[i], a) && FirstChosenAt(chosen, FirstOfEach(chosen)[j], b)
            && a <= b
  {
    var people := FirstOfEach(chosen);
    a := FirstPlace(chosen, people[i]);
    b := FirstPlace(chosen, people[j]);
    var k: nat :| k < |chosen| && chosen[k].person == people[j] && chosen[k].start == b;
    var l := EarlierPerson(chosen, i, j, k);
    assert ByStart()(chosen[l], chosen[k]);
  }

  // ----- Matching

  /** The chosen matches in text order, for given alias rows and places. */
  ghost function ChosenInOrder(rows: seq<AliasRow>, occurrences: string -> seq<nat>): seq<Candidate> {
    Sort(Select(Candidates(rows, occurrences)), ByStart())
  }

  /** Who has each alias, and the aliases in the order they came. */
  ghost predicate Grouped(rows: seq<AliasRow>, aliases: seq<string>, byAlias: map<string, set<nat>>) {
    && aliases == Aliases(rows)
    && (forall alias :: alias in byAlias <==> alias in aliases)
    && (forall alias | alias in byAlias :: byAlias[alias] == PeopleWith(rows, alias))
  }

  method GroupByAlias(rows: seq<AliasRow>) returns (aliases: seq<string>, byAlias: map<string, set<nat>>)
    ensures Grouped(rows, aliases, byAlias)
  {
    aliases, byAlias := [], map[];
    for k := 0 to |rows|
      invariant Grouped(rows[..k], aliases, byAlias)
    {
      var row := rows[k];
      GroupOne(rows[..k], aliases, byAlias, row);
      assert rows[..k + 1] == rows[..k] + [row];
      if row.alias !in byAlias {
        aliases, byAlias := aliases + [row.alias], byAlias[row.alias := {}];
      }
      byAlias := byAlias[row.alias := byAlias[row.alias] + {row.person}];
    }
    assert rows[..|rows|] == rows;
  }

  lemma OneMore(rows: seq<AliasRow>, row: AliasRow, alias: string)
    ensures PeopleWith(rows + [row], alias) == PeopleWith(rows, alias) + if alias == row.alias then {row.person} else {}
  {
  }

  lemma AliasesOneMore(rows: seq<AliasRow>, row: AliasRow)
    ensures Aliases(rows + [row]) == if row.alias in Aliases(rows) then Aliases(rows) else Aliases(rows) + [row.alias]
  {
    assert (rows + [row])[..|rows|] == rows;
  }

  lemma GroupOne(rows: seq<AliasRow>, aliases: seq<string>, byAlias: map<string, set<nat>>, row: AliasRow)
    requires Grouped(rows, aliases, byAlias)
    ensures var known := if row.alias in byAlias then byAlias[row.alias] else {};
            var aliases' := if row.alias in byAlias then aliases else aliases + [row.alias];
            Grouped(rows + [row], aliases', byAlias[row.alias := known + {row.person}])
  {
    AliasesOneMore(rows, row);
    if row.alias !in byAlias { NobodyYet(rows, row.alias); }
    forall alias
      ensures PeopleWith(rows + [row], alias) ==
              PeopleWith(rows, alias) + if alias == row.alias then {row.person} else {} {
      OneMore(rows, row, alias);
    }
  }

  lemma NobodyYet(rows: seq<AliasRow>, alias: string)
    requires alias !in Aliases(rows)
    ensures PeopleWith(rows, alias) == {}
  {
  }

  method CollectCandidates(rows: seq<AliasRow>, occurrences: string -> seq<nat>) returns (candidates: seq<Candidate>)
    ensures candidates == Candidates(rows, occurrences)
  {
    var aliases, byAlias := GroupByAlias(rows);
    candidates := [];
    for k := 0 to |aliases|
      invariant candidates == Found(rows, occurrences, aliases[..k])
    {
      assert aliases[..k + 1][..k] == aliases[..k];
      var alias := aliases[k];
      assert alias in aliases;
      if alias == "" || |byAlias[alias]| != 1 {
        continue;
      }
      assert byAlias[alias] != {};
      var person :| person in byAlias[alias];
      OnlyOwner(byAlias[alias], person);
      candidates := candidates + At(|alias|, person, occurrences(alias));
    }
    assert aliases[..|aliases|] == aliases;
  }

  method SelectLongest(candidates: seq<Candidate>) returns (selected: seq<Candidate>)
    ensures selected == Select(candidates)
  {
    var sorted := Sort(candidates, LongestFirst());
    selected := [];
    for k := 0 to |sorted|
      invariant selected == Greedy(sorted[..k])
    {
      assert sorted[..k + 1][..k] == sorted[..k];
      if Free(selected, sorted[k]) {
        selected := selected + [sorted[k]];
      }
    }
    assert sorted[..|sorted|] == sorted;
  }

  /** The matches that people are found by, in text order. */
  ghost predicate IsAnswer(rows: seq<AliasRow>, occurrences: string -> seq<nat>, chosen: seq<Candidate>) {
    && (forall c | c in chosen :: exists alias :: StandsFor(rows, occurrences, c, alias))
    && NoPlaceTwice(chosen)
    && (forall c, alias | StandsFor(rows, occurrences, c, alias) && c !in chosen :: GivesWay(chosen, c))
    && (forall i, j | 0 <= i < j < |chosen| :: chosen[i].start <= chosen[j].start)
  }

  /** Some match of the first person comes before every match of the second. */
  ghost predicate ComesFirst(chosen: seq<Candidate>, first: nat, second: nat) {
    exists k: nat :: k < |chosen| && chosen[k].person == first &&
                forall l: nat | l < |chosen| && chosen[l].person == second :: k < l
  }

  lemma {:induction false} FirstComesFirst(chosen: seq<Candidate>, i: nat, j: nat)
    requires i < j < |FirstOfEach(chosen)|
    ensures ComesFirst(chosen, FirstOfEach(chosen)[i], FirstOfEach(chosen)[j])
  {
    var last := |chosen| - 1;
    var init, before, all := chosen[..last], FirstOfEach(chosen[..last]), FirstOfEach(chosen);
    if j < |before| {
      FirstComesFirst(init, i, j);
      var k: nat :| k < |init| && init[k].person == all[i] &&
                    forall l: nat | l < |init| && init[l].person == all[j] :: k < l;
      assert chosen[k] == init[k] && forall l: nat | l < last :: chosen[l] == init[l];
    } else {
      assert before[i] in before;
      var k: nat :| k < |init| && init[k].person == before[i];
      assert chosen[k] == init[k];
      forall l: nat | l < |chosen| && chosen[l].person == all[j] ensures k < l {
        if l < last { assert init[l].person in before; }
      }
    }
  }

  lemma EachOnceInOrder(chosen: seq<Candidate>)
    ensures var people := FirstOfEach(chosen);
            && (forall p :: p in people <==> exists c :: c in chosen && c.person == p)
            && (forall i, j | 0 <= i < j < |people| :: ComesFirst(chosen, people[i], people[j]))
  {
    var people := FirstOfEach(chosen);
    forall p ensures p in people <==> exists c :: c in chosen && c.person == p {
      if c :| c in chosen && c.person == p {
        var i :| 0 <= i < |chosen| && chosen[i] == c;
        assert chosen[i].person == p;
      }
      if i :| 0 <= i < |chosen| && chosen[i].person == p { assert chosen[i] in chosen; }
    }
    forall i, j | 0 <= i < j < |people| ensures ComesFirst(chosen, people[i], people[j]) {
      FirstComesFirst(chosen, i, j);
    }
  }

  lemma SelectedAreMatches(rows: seq<AliasRow>, occurrences: string -> seq<nat>)
    ensures var candidates := Candidates(rows, occurrences);
            && NoneEmpty(candidates)
            && (forall c | c in Select(candidates) :: exists alias :: StandsFor(rows, occurrences, c, alias))
            && forall c, alias | StandsFor(rows, occurrences, c, alias) :: c in candidates
  {
    var candidates := Candidates(rows, occurrences);
    forall c ensures c in candidates <==> exists alias :: StandsFor(rows, occurrences, c, alias) {
      CandidatesAre(rows, occurrences, c);
    }
    SelectionIsMaximal(candidates);
  }

  lemma ChosenIsAnswer(rows: seq<AliasRow>, occurrences: string -> seq<nat>)
    ensures IsAnswer(rows, occurrences, ChosenInOrder(rows, occurrences))
  {
    var candidates := Candidates(rows, occurrences);
    var selected, chosen := Select(candidates), ChosenInOrder(rows, occurrences);
    SelectedAreMatches(rows, occurrences);
    SelectionIsMaximal(candidates);
    SortIsPermutation(selected, ByStart());
    SortIsSorted(selected, ByStart());
    NothingSharedStays(selected, chosen);
    forall i, j | 0 <= i < j < |chosen| ensures chosen[i].start <= chosen[j].start {
      assert ByStart()(chosen[i], chosen[j]);
    }
  }

  lemma NothingSharedStays(selected: seq<Candidate>, chosen: seq<Candidate>)
    requires NoPlaceTwice(selected) && NoneEmpty(selected) && multiset(chosen) == multiset(selected)
    ensures NoPlaceTwice(chosen)
  {
    SameElements(chosen, selected);
    forall i, j | 0 <= i < j < |chosen| ensures !ShareAPlace(chosen[i], chosen[j]) {
      assert chosen[i] in selected && chosen[j] in selected;
      var k :| 0 <= k < |selected| && selected[k] == chosen[i];
      var l :| 0 <= l < |selected| && selected[l] == chosen[j];
      if k == l {
        RepeatedCount(chosen, i, j);
        SharedBySelf(selected);
        DistinctCount(selected, chosen[i]);
      }
    }
  }

  lemma SharedBySelf(selected: seq<Candidate>)
    requires NoPlaceTwice(selected) && NoneEmpty(selected)
    ensures Distinct(selected)
  {
    forall i, j | 0 <= i < j < |selected| ensures selected[i] != selected[j] {
      assert selected[i] in selected && Covers(selected[i], selected[i].start);
    }
  }

  /** The people of the chosen matches, each once, in the order of their first ones. */
  method MatchPeople(rows: seq<AliasRow>, occurrences: string -> seq<nat>)
    returns (people: seq<nat>, ghost chosen: seq<Candidate>)
    ensures Distinct(people)
    ensures IsAnswer(rows, occurrences, chosen)
    ensures forall p :: p in people <==> exists c :: c in chosen && c.person == p
    ensures forall i, j | 0 <= i < j < |people| :: ComesFirst(chosen, people[i], people[j])
  {
    var candidates := CollectCandidates(rows, occurrences);
    var selected := SelectLongest(candidates);
    var ordered := Sort(selected, ByStart());
    chosen := ordered;
    people := [];
    for k := 0 to |ordered|
      invariant people == FirstOfEach(ordered[..k])
    {
      assert ordered[..k + 1][..k] == ordered[..k];
      if ordered[k].person !in people {
        people := people + [ordered[k].person];
      }
    }
    assert ordered[..|ordered|] == ordered;
    ChosenIsAnswer(rows, occurrences);
    EachOnceInOrder(chosen);
  }
}

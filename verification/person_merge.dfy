/**
  People, aliases, relationships and the merge of one person into another.

  A merge rewrites four tables row by row.  Its meaning is one renaming: `source` becomes `target`
  everywhere, and what the renaming makes a relationship of a person with themselves disappears.
 */
module PersonMerge {
  import opened Wrappers

  datatype Status = Active | Merged(into: nat)

  /** `profile` is the card's watermark; a merge clears it, so the card is folded anew. */
  datatype Person = Person(status: Status, profile: Option<nat>)

  datatype Relationship = Relationship(a: nat, b: nat, profile: Option<nat>)

  datatype Alias = Alias(person: nat, name: string)

  datatype Link = Link(memory: nat, person: nat)

  datatype RelLink = RelLink(memory: nat, relationship: nat, role: string)

  datatype World = World(people: map<nat, Person>, aliases: set<Alias>, links: set<Link>,
                         relationships: map<nat, Relationship>, relLinks: set<RelLink>)

  datatype Error = SamePerson | NotFound | MergedElsewhere | NotActive

  predicate IsActive(people: map<nat, Person>, p: nat) {
    p in people && people[p].status.Active?
  }

  predicate Names(r: Relationship, p: nat) {
    r.a == p || r.b == p
  }

  predicate Joins(r: Relationship, p: nat, q: nat) {
    (r.a == p && r.b == q) || (r.a == q && r.b == p)
  }

  function Other(r: Relationship, p: nat): nat {
    if r.a == p then r.b else r.a
  }

  /** The endpoints sorted, with a cleared card. */
  function Between(p: nat, q: nat): Relationship {
    if p < q then Relationship(p, q, None) else Relationship(q, p, None)
  }

  ghost function Existing(relationships: map<nat, Relationship>, p: nat, q: nat): (r: Option<nat>)
    ensures r.Some? ==> r.value in relationships && Joins(relationships[r.value], p, q)
    ensures r.None? ==> forall id | id in relationships :: !Joins(relationships[id], p, q)
  {
    if exists id :: id in relationships && Joins(relationships[id], p, q) then
      var id :| id in relationships && Joins(relationships[id], p, q); Some(id)
    else None
  }

  // ----- The tables' invariant

  ghost predicate RelationshipsValid(people: map<nat, Person>, relationships: map<nat, Relationship>) {
    && (forall id | id in relationships ::
          && relationships[id].a < relationships[id].b
          && IsActive(people, relationships[id].a) && IsActive(people, relationships[id].b))
    && (forall id, id' | id in relationships && id' in relationships
                         && relationships[id].a == relationships[id'].a
                            && relationships[id].b == relationships[id'].b ::
          id == id')
  }

  /** Following merged-into pointers from p, n of them, ends at an active person. */
  ghost predicate ReachesActive(people: map<nat, Person>, p: nat, n: nat)
    decreases n
  {
    p in people &&
    match people[p].status
    case Active => true
    case Merged(into) => n > 0 && ReachesActive(people, into, n - 1)
  }

  ghost predicate PointersEnd(people: map<nat, Person>) {
    forall p | p in people :: exists n :: ReachesActive(people, p, n)
  }

  ghost predicate Valid(w: World) {
    && RelationshipsValid(w.people, w.relationships)
    && (forall l | l in w.relLinks :: l.relationship in w.relationships)
    && (forall l | l in w.links :: IsActive(w.people, l.person))
    && (forall a | a in w.aliases :: IsActive(w.people, a.person))
    && PointersEnd(w.people)
  }

  // ----- The merge on values

  function Renamed(p: nat, source: nat, target: nat): nat {
    if p == source then target else p
  }

  /** Where a relationship's links go: nowhere, to an existing relationship, or where they are. */
  ghost function Successor(w: World, source: nat, target: nat, id: nat): Option<nat>
    requires id in w.relationships
  {
    var r := w.relationships[id];
    if !Names(r, source) then Some(id)
    else if Other(r, source) == target then None
    else
      match Existing(w.relationships, target, Other(r, source))
      case Some(existing) => Some(existing)
      case None => Some(id)
  }

  /** Relationships that took over another's links or changed an endpoint: their cards are cleared. */
  ghost predicate Affected(w: World, source: nat, target: nat, id: nat) {
    exists r :: r in w.relationships && Names(w.relationships[r], source) && Successor(w, source, target, r) == Some(id)
  }

  ghost function MergedRelationship(w: World, source: nat, target: nat, id: nat): Relationship
    requires id in w.relationships
  {
    var r := w.relationships[id];
    if Names(r, source) then Between(target, Other(r, source))
    else if Affected(w, source, target, id) then r.(profile := None)
    else r
  }

  function MergedPeople(people: map<nat, Person>, source: nat, target: nat): map<nat, Person>
    requires source in people && target in people
  {
    people[source := people[source].(status := Merged(target))][target := people[target].(profile := None)]
  }

  ghost function Merge(w: World, source: nat, target: nat): World
    requires source in w.people && target in w.people
  {
    World(MergedPeople(w.people, source, target),
          set a | a in w.aliases :: Alias(Renamed(a.person, source, target), a.name),
          set l | l in w.links :: Link(l.memory, Renamed(l.person, source, target)),
          map id | id in w.relationships && Successor(w, source, target, id) == Some(id) ::
            MergedRelationship(w, source, target, id),
          set l | l in w.relLinks && l.relationship in w.relationships
              && Successor(w, source, target, l.relationship).Some? ::
            RelLink(l.memory, Successor(w, source, target, l.relationship).value, l.role))
  }

  /** The source points at the target, whose card is folded anew; nobody else notices. */
  lemma MergeLeavesPeople(w: World, source: nat, target: nat)
    requires Mergeable(w, source, target)
    ensures var people := Merge(w, source, target).people;
            && people.Keys == w.people.Keys
            && people[target] == Person(Active, None)
            && people[source].status == Merged(target) && people[source].profile == w.people[source].profile
            && forall p | p in people && p != source && p != target :: people[p] == w.people[p]
  {
  }

  ghost predicate Mergeable(w: World, source: nat, target: nat) {
    source != target && IsActive(w.people, source) && IsActive(w.people, target)
  }

  // ----- The merge is a quotient

  /** A Memory is linked to the relationship of two people in the given role. */
  ghost predicate Involves(w: World, memory: nat, p: nat, q: nat, role: string) {
    exists id :: RelLink(memory, id, role) in w.relLinks && id in w.relationships && Joins(w.relationships[id], p, q)
  }

  ghost predicate Related(w: World, p: nat, q: nat) {
    exists id :: id in w.relationships && Joins(w.relationships[id], p, q)
  }

  /** Links go to a relationship that keeps its own, unless they connect source and target. */
  lemma SuccessorSurvives(w: World, source: nat, target: nat, id: nat)
    requires Valid(w) && Mergeable(w, source, target) && id in w.relationships
    ensures var next := Successor(w, source, target, id);
            && (next.None? <==> Joins(w.relationships[id], source, target))
            && (next.Some? ==> next.value in w.relationships && Successor(w, source, target, next.value) == next)
  {
  }

  lemma SuccessorJoinsImages(w: World, source: nat, target: nat, id: nat)
    requires Valid(w) && Mergeable(w, source, target) && id in w.relationships && Successor(w, source, target, id).Some?
    requires Successor(w, source, target, id).value in w.relationships
    ensures var r := w.relationships[id];
            var merged := MergedRelationship(w, source, target, Successor(w, source, target, id).value);
            && Joins(merged, Renamed(r.a, source, target), Renamed(r.b, source, target))
            && merged.a < merged.b && !Names(merged, source)
  {
  }

  /** No table names the source any more, and the renaming is all that happened to links and aliases. */
  lemma MergeForgetsSource(w: World, source: nat, target: nat)
    requires Valid(w) && Mergeable(w, source, target)
    ensures var w' := Merge(w, source, target);
            && (forall a | a in w'.aliases :: a.person != source)
            && (forall l | l in w'.links :: l.person != source)
            && (forall id | id in w'.relationships :: !Names(w'.relationships[id], source))
            && (forall m, p | p != target && p != source :: Link(m, p) in w'.links <==> Link(m, p) in w.links)
            && (forall m :: Link(m, target) in w'.links <==> Link(m, target) in w.links || Link(m, source) in w.links)
            && (forall n ::
                  Alias(target, n) in w'.aliases <==> Alias(target, n) in w.aliases || Alias(source, n) in w.aliases)
            && (forall p, n | p != target && p != source :: Alias(p, n) in w'.aliases <==> Alias(p, n) in w.aliases)
  {
    var w' := Merge(w, source, target);
    forall id | id in w'.relationships ensures !Names(w'.relationships[id], source) {
      SuccessorJoinsImages(w, source, target, id);
    }
    forall m ensures Link(m, target) in w'.links <==> Link(m, target) in w.links || Link(m, source) in w.links {
      if Link(m, source) in w.links { assert Link(m, Renamed(source, source, target)) in w'.links; }
      if Link(m, target) in w.links { assert Link(m, Renamed(target, source, target)) in w'.links; }
    }
    forall n
      ensures Alias(target, n) in w'.aliases <==> Alias(target, n) in w.aliases || Alias(source, n) in w.aliases {
      if Alias(source, n) in w.aliases { assert Alias(Renamed(source, source, target), n) in w'.aliases; }
      if Alias(target, n) in w.aliases { assert Alias(Renamed(target, source, target), n) in w'.aliases; }
    }
    forall p, n | p != target && p != source ensures Alias(p, n) in w'.aliases <==> Alias(p, n) in w.aliases {
      if Alias(p, n) in w.aliases { assert Alias(Renamed(p, source, target), n) in w'.aliases; }
    }
    forall m, p | p != target && p != source ensures Link(m, p) in w'.links <==> Link(m, p) in w.links {
      if Link(m, p) in w.links { assert Link(m, Renamed(p, source, target)) in w'.links; }
    }
  }

  lemma RelationshipFollows(w: World, source: nat, target: nat, id: nat, p: nat, q: nat)
    requires Valid(w) && Mergeable(w, source, target)
    requires id in w.relationships && Joins(w.relationships[id], p, q)
    requires Renamed(p, source, target) != Renamed(q, source, target)
    ensures var next, w' := Successor(w, source, target, id), Merge(w, source, target);
            && next.Some? && next.value in w'.relationships
            && Joins(w'.relationships[next.value], Renamed(p, source, target), Renamed(q, source, target))
  {
    SuccessorSurvives(w, source, target, id);
    SuccessorJoinsImages(w, source, target, id);
  }

  /** Whose relationship a surviving relationship, or one whose links it took over, was. */
  ghost predicate Preimage(r: Relationship, source: nat, target: nat, p: nat, q: nat) {
    Joins(r, p, q) || (p == target && Joins(r, source, q)) || (q == target && Joins(r, p, source))
  }

  lemma RelationshipComesFrom(w: World, source: nat, target: nat, id: nat, p: nat, q: nat)
    requires Valid(w) && Mergeable(w, source, target) && id in w.relationships
    requires Successor(w, source, target, id).Some?
    requires Successor(w, source, target, id).value in Merge(w, source, target).relationships
    requires Joins(Merge(w, source, target).relationships[Successor(w, source, target, id).value], p, q)
    ensures p != q && p != source && q != source && Preimage(w.relationships[id], source, target, p, q)
  {
    SuccessorSurvives(w, source, target, id);
    SuccessorJoinsImages(w, source, target, id);
  }

  /**
    Two people are related after the merge exactly when some two people who are renamed to them
    were related before; a relationship of source and target has nobody left to relate.
   */
  lemma MergeRelatesImages(w: World, source: nat, target: nat, p: nat, q: nat)
    requires Valid(w) && Mergeable(w, source, target)
    ensures Related(Merge(w, source, target), p, q) <==>
            p != q && p != source && q != source &&
            exists id :: id in w.relationships && Preimage(w.relationships[id], source, target, p, q)
  {
    var w' := Merge(w, source, target);
    if Related(w', p, q) {
      var id :| id in w'.relationships && Joins(w'.relationships[id], p, q);
      RelationshipComesFrom(w, source, target, id, p, q);
    }
    if p != q && p != source && q != source &&
       exists id :: id in w.relationships && Preimage(w.relationships[id], source, target, p, q) {
      var id :| id in w.relationships && Preimage(w.relationships[id], source, target, p, q);
      PreimageFollows(w, source, target, id, p, q);
    }
  }

  lemma PreimageFollows(w: World, source: nat, target: nat, id: nat, p: nat, q: nat)
    requires Valid(w) && Mergeable(w, source, target) && p != q && p != source && q != source
    requires id in w.relationships && Preimage(w.relationships[id], source, target, p, q)
    ensures var next, w' := Successor(w, source, target, id), Merge(w, source, target);
            next.Some? && next.value in w'.relationships && Joins(w'.relationships[next.value], p, q)
  {
    var r := w.relationships[id];
    if Joins(r, p, q) {
      RelationshipFollows(w, source, target, id, p, q);
    } else if p == target && Joins(r, source, q) {
      RelationshipFollows(w, source, target, id, source, q);
    } else {
      RelationshipFollows(w, source, target, id, p, source);
    }
  }

  /** Every Memory's relationship links follow the renaming, role by role. */
  lemma MergeLinksImages(w: World, source: nat, target: nat, m: nat, p: nat, q: nat, role: string)
    requires Valid(w) && Mergeable(w, source, target)
    ensures Involves(Merge(w, source, target), m, p, q, role) <==>
            p != q && p != source && q != source &&
            exists id :: id in w.relationships && RelLink(m, id, role) in w.relLinks
                         && Preimage(w.relationships[id], source, target, p, q)
  {
    var w' := Merge(w, source, target);
    if Involves(w', m, p, q, role) {
      var next :| RelLink(m, next, role) in w'.relLinks && next in w'.relationships
          && Joins(w'.relationships[next], p, q);
      var id := LinkComesFrom(w, source, target, m, next, role);
      RelationshipComesFrom(w, source, target, id, p, q);
    }
    if id :| id in w.relationships && RelLink(m, id, role) in w.relLinks
             && Preimage(w.relationships[id], source, target, p, q)
             && p != q && p != source && q != source {
      PreimageFollows(w, source, target, id, p, q);
      assert RelLink(m, Successor(w, source, target, id).value, role) in w'.relLinks;
    }
  }

  lemma LinkComesFrom(w: World, source: nat, target: nat, m: nat, next: nat, role: string) returns (id: nat)
    requires Valid(w) && Mergeable(w, source, target) && RelLink(m, next, role) in Merge(w, source, target).relLinks
    ensures id in w.relationships && RelLink(m, id, role) in w.relLinks
            && Successor(w, source, target, id) == Some(next)
  {
    var l :| l in w.relLinks && l.relationship in w.relationships
        && Successor(w, source, target, l.relationship) == Some(next)
             && l.memory == m && l.role == role;
    id := l.relationship;
    assert l == RelLink(m, id, role);
  }

  /** A relationship of the source with another person, whom the relationship `id` joins with the target now. */
  ghost predicate TakesOver(w: World, w': World, source: nat, target: nat, id: nat, r: nat) {
    && r in w.relationships && id in w'.relationships
    && exists other :: other != target && Joins(w.relationships[r], source, other)
                       && Joins(w'.relationships[id], target, other)
  }

  /** Rows without the source keep their endpoints; a card is cleared exactly where a relationship was taken over. */
  lemma MergeClearsCards(w: World, source: nat, target: nat, id: nat)
    requires Valid(w) && Mergeable(w, source, target) && id in w.relationships
    ensures var w' := Merge(w, source, target);
            && w'.relationships.Keys <= w.relationships.Keys
            && (w.relationships[id].a != source && w.relationships[id].b != source ==>
                  && id in w'.relationships
                  && w'.relationships[id].a == w.relationships[id].a && w'.relationships[id].b == w.relationships[id].b)
            && (id in w'.relationships ==>
                  w'.relationships[id].profile ==
                  if exists r :: TakesOver(w, w', source, target, id, r) then None else w.relationships[id].profile)
  {
    var w' := Merge(w, source, target);
    if id in w'.relationships {
      SuccessorJoinsImages(w, source, target, id);
      if r :| TakesOver(w, w', source, target, id, r) {
        TakenOverIsAffected(w, source, target, id, r);
      }
      if Affected(w, source, target, id) {
        var r :| r in w.relationships && Names(w.relationships[r], source)
                 && Successor(w, source, target, r) == Some(id);
        SuccessorJoinsImages(w, source, target, r);
        assert Joins(w.relationships[r], source, Other(w.relationships[r], source));
        assert TakesOver(w, w', source, target, id, r);
      }
    }
  }

  lemma TakenOverIsAffected(w: World, source: nat, target: nat, id: nat, r: nat)
    requires Valid(w) && Mergeable(w, source, target)
    requires TakesOver(w, Merge(w, source, target), source, target, id, r)
    ensures Affected(w, source, target, id)
  {
    var w' := Merge(w, source, target);
    var other :| other != target && Joins(w.relationships[r], source, other)
                 && Joins(w'.relationships[id], target, other);
    RelationshipFollows(w, source, target, r, source, other);
    var next := Successor(w, source, target, r).value;
    MergeKeepsRelationships(w, source, target);
    assert Joins(w'.relationships[next], target, other);
    assert next == id;
  }

  // ----- The merge keeps the invariant

  lemma MergeKeepsRelationships(w: World, source: nat, target: nat)
    requires Valid(w) && Mergeable(w, source, target)
    ensures var w' := Merge(w, source, target);
            && RelationshipsValid(w'.people, w'.relationships)
            && forall l | l in w'.relLinks :: l.relationship in w'.relationships
  {
    var w' := Merge(w, source, target);
    forall id | id in w'.relationships
      ensures w'.relationships[id].a < w'.relationships[id].b
      ensures IsActive(w'.people, w'.relationships[id].a) && IsActive(w'.people, w'.relationships[id].b)
    {
      SuccessorJoinsImages(w, source, target, id);
    }
    forall id, id' | id in w'.relationships && id' in w'.relationships
                     && w'.relationships[id].a == w'.relationships[id'].a
                        && w'.relationships[id].b == w'.relationships[id'].b
      ensures id == id'
    {
      SuccessorJoinsImages(w, source, target, id);
      SuccessorJoinsImages(w, source, target, id');
      SameImageSameId(w, source, target, id, id');
    }
    forall l | l in w'.relLinks ensures l.relationship in w'.relationships {
      var id := LinkComesFrom(w, source, target, l.memory, l.relationship, l.role);
      SuccessorSurvives(w, source, target, id);
    }
  }

  lemma SameImageSameId(w: World, source: nat, target: nat, id: nat, id': nat)
    requires Valid(w) && Mergeable(w, source, target) && id in w.relationships && id' in w.relationships
    requires Successor(w, source, target, id) == Some(id) && Successor(w, source, target, id') == Some(id')
    requires var r, r' := MergedRelationship(w, source, target, id), MergedRelationship(w, source, target, id');
             r.a == r'.a && r.b == r'.b
    ensures id == id'
  {
    var r, r' := w.relationships[id], w.relationships[id'];
    if Names(r, source) && !Names(r', source) {
      assert Joins(r', target, Other(r, source));
    } else if !Names(r, source) && Names(r', source) {
      assert Joins(r, target, Other(r', source));
    }
  }

  /** A chain of pointers that ended at the source now goes one further, to the target. */
  lemma {:induction false} ChainsStillEnd(people: map<nat, Person>, source: nat, target: nat, p: nat, n: nat)
    requires IsActive(people, source) && IsActive(people, target) && source != target && ReachesActive(people, p, n)
    ensures ReachesActive(MergedPeople(people, source, target), p, n + 1)
    decreases n
  {
    match people[p].status
    case Active =>
      assert ReachesActive(MergedPeople(people, source, target), target, n);
    case Merged(into) => ChainsStillEnd(people, source, target, into, n - 1);
  }

  lemma MergeKeepsValid(w: World, source: nat, target: nat)
    requires Valid(w) && Mergeable(w, source, target)
    ensures Valid(Merge(w, source, target))
  {
    var w' := Merge(w, source, target);
    MergeKeepsRelationships(w, source, target);
    forall p | p in w'.people ensures exists n :: ReachesActive(w'.people, p, n) {
      var n :| ReachesActive(w.people, p, n);
      ChainsStillEnd(w.people, source, target, p, n);
    }
  }

  // ----- Where a merged person ends up

  /** The active person at the end of the chain of merged-into pointers. */
  ghost function Root(people: map<nat, Person>, p: nat, n: nat): nat
    requires ReachesActive(people, p, n)
    decreases n
  {
    if people[p].status.Active? then p else Root(people, people[p].status.into, n - 1)
  }

  /** The merge renames roots just as it renames links: everybody who was the source is the target. */
  lemma {:induction false} MergeRenamesRoots(people: map<nat, Person>, source: nat, target: nat, p: nat, n: nat)
    requires IsActive(people, source) && IsActive(people, target) && source != target && ReachesActive(people, p, n)
    ensures ReachesActive(MergedPeople(people, source, target), p, n + 1)
    ensures Root(MergedPeople(people, source, target), p, n + 1) == Renamed(Root(people, p, n), source, target)
    ensures IsActive(MergedPeople(people, source, target), Renamed(Root(people, p, n), source, target))
    decreases n
  {
    ChainsStillEnd(people, source, target, p, n);
    match people[p].status
    case Active =>
    case Merged(into) => MergeRenamesRoots(people, source, target, into, n - 1);
  }

  /** Pointers have no cycle: a chain that ends cannot come back to where it started. */
  lemma {:induction false} NoPointerCycle(people: map<nat, Person>, cycle: seq<nat>, n: nat)
    requires |cycle| > 1 && ReachesActive(people, cycle[0], n)
    requires forall i | 0 <= i < |cycle| - 1 :: cycle[i] in people && people[cycle[i]].status == Merged(cycle[i + 1])
    ensures cycle[0] != cycle[|cycle| - 1]
    decreases n
  {
    if cycle[0] == cycle[|cycle| - 1] {
      var next := cycle[1..] + [cycle[1]];
      forall i | 0 <= i < |next| - 1 ensures next[i] in people && people[next[i]].status == Merged(next[i + 1]) {
        if i + 2 < |cycle| {
          assert next[i] == cycle[i + 1] && next[i + 1] == cycle[i + 2];
        } else {
          assert next[i] == cycle[0] && next[i + 1] == cycle[1];
        }
      }
      NoPointerCycle(people, next, n - 1);
    }
  }

  // ----- Runs

  datatype Event =
    | CreatePerson(person: nat, name: string)
    | AddAlias(owner: nat, name: string)
    | LinkMemory(memory: nat, member: nat)
    | EnsureRelationship(newId: nat, p: nat, q: nat)
    | LinkRelationship(memory: nat, relationship: nat, role: string)
    | MergePeople(source: nat, target: nat)

  ghost predicate Enabled(w: World, e: Event) {
    match e
    case CreatePerson(p, _) => p !in w.people
    case AddAlias(p, _) => IsActive(w.people, p)
    case LinkMemory(_, p) => IsActive(w.people, p)
    case EnsureRelationship(newId, p, q) =>
      newId !in w.relationships && p != q && IsActive(w.people, p) && IsActive(w.people, q)
    case LinkRelationship(_, id, _) => id in w.relationships
    case MergePeople(source, target) => Mergeable(w, source, target)
  }

  ghost function Step(w: World, e: Event): World
    requires Enabled(w, e)
  {
    match e
    case CreatePerson(p, name) =>
      w.(people := w.people[p := Person(Active, None)], aliases := w.aliases + {Alias(p, name)})
    case AddAlias(p, name) => w.(aliases := w.aliases + {Alias(p, name)})
    case LinkMemory(m, p) => w.(links := w.links + {Link(m, p)})
    case EnsureRelationship(newId, p, q) =>
      if Related(w, p, q) then w else w.(relationships := w.relationships[newId := Between(p, q)])
    case LinkRelationship(m, id, role) => w.(relLinks := w.relLinks + {RelLink(m, id, role)})
    case MergePeople(source, target) => Merge(w, source, target)
  }

  lemma {:induction false} NewPersonKeepsChains(people: map<nat, Person>, newId: nat, p: nat, n: nat)
    requires newId !in people && ReachesActive(people, p, n)
    ensures ReachesActive(people[newId := Person(Active, None)], p, n)
    decreases n
  {
    if people[p].status.Merged? { NewPersonKeepsChains(people, newId, people[p].status.into, n - 1); }
  }

  lemma StepKeepsValid(w: World, e: Event)
    requires Valid(w) && Enabled(w, e)
    ensures Valid(Step(w, e))
  {
    match e
    case CreatePerson(newId, _) =>
      var w' := Step(w, e);
      forall p | p in w'.people ensures exists n :: ReachesActive(w'.people, p, n) {
        if p == newId {
          assert ReachesActive(w'.people, p, 0);
        } else {
          var n :| ReachesActive(w.people, p, n);
          NewPersonKeepsChains(w.people, newId, p, n);
        }
      }
    case MergePeople(source, target) => MergeKeepsValid(w, source, target);
    case EnsureRelationship(newId, p, q) => EnsureKeepsValid(w, newId, p, q);
    case _ =>
      var w' := Step(w, e);
      assert w'.people == w.people && w'.relationships == w.relationships;
  }

  lemma EnsureKeepsValid(w: World, newId: nat, p: nat, q: nat)
    requires Valid(w) && Enabled(w, EnsureRelationship(newId, p, q))
    ensures Valid(Step(w, EnsureRelationship(newId, p, q)))
    ensures var w' := Step(w, EnsureRelationship(newId, p, q));
            && Related(w', p, q) && (Related(w, p, q) ==> w' == w)
            && forall id | id in w.relationships ::
                 id in w'.relationships && w'.relationships[id] == w.relationships[id]
  {
    if !Related(w, p, q) {
      var w' := Step(w, EnsureRelationship(newId, p, q));
      assert w'.people == w.people && Joins(w'.relationships[newId], p, q);
      assert forall id | id in w.relationships ::
               !Joins(w.relationships[id], p, q) && w'.relationships[id] == w.relationships[id];
    }
  }

  ghost predicate Legal(w: World, events: seq<Event>)
    decreases |events|
  {
    events == [] || (Enabled(w, events[0]) && Legal(Step(w, events[0]), events[1..]))
  }

  ghost function Run(w: World, events: seq<Event>): World
    requires Legal(w, events)
    decreases |events|
  {
    if events == [] then w else Run(Step(w, events[0]), events[1..])
  }

  /** In every run pointers end at active people and relationships join two distinct active people, uniquely. */
  lemma {:induction false} RunKeepsValid(w: World, events: seq<Event>)
    requires Valid(w) && Legal(w, events)
    ensures Valid(Run(w, events))
    decreases |events|
  {
    if events != [] {
      StepKeepsValid(w, events[0]);
      RunKeepsValid(Step(w, events[0]), events[1..]);
    }
  }

  // ----- The row-by-row rewriting

  /** The relationship table after the rows in `done` have been rewritten. */
  ghost function RewrittenRelationships(w: World, source: nat, target: nat, done: set<nat>): map<nat, Relationship> {
    map id | id in w.relationships && (id in done ==> Successor(w, source, target, id) == Some(id)) ::
      if id in done then Between(target, Other(w.relationships[id], source)) else w.relationships[id]
  }

  ghost function RewrittenLink(w: World, source: nat, target: nat, done: set<nat>, l: RelLink): RelLink {
    if l.relationship in done && l.relationship in w.relationships
        && Successor(w, source, target, l.relationship).Some? then
      RelLink(l.memory, Successor(w, source, target, l.relationship).value, l.role)
    else l
  }

  ghost predicate StillLinked(w: World, source: nat, target: nat, done: set<nat>, l: RelLink) {
    l in w.relLinks && l.relationship in w.relationships
    && (l.relationship in done ==> Successor(w, source, target, l.relationship).Some?)
  }

  ghost function RewrittenLinks(w: World, source: nat, target: nat, done: set<nat>): set<RelLink> {
    set l | l in w.relLinks && StillLinked(w, source, target, done, l) :: RewrittenLink(w, source, target, done, l)
  }

  ghost predicate NamesSource(w: World, source: nat, ids: set<nat>) {
    forall id | id in ids :: id in w.relationships && Names(w.relationships[id], source)
  }

  /** Looking the target's relationship up in the half-rewritten table finds what the original held. */
  lemma LookupIsStable(w: World, source: nat, target: nat, done: set<nat>, id: nat, e: nat)
    requires Valid(w) && Mergeable(w, source, target) && NamesSource(w, source, done + {id}) && id !in done
    requires !Joins(w.relationships[id], source, target)
    ensures var now := RewrittenRelationships(w, source, target, done);
            (e in now && Joins(now[e], target, Other(w.relationships[id], source)))
            <==> Existing(w.relationships, target, Other(w.relationships[id], source)) == Some(e)
  {
    var now, other := RewrittenRelationships(w, source, target, done), Other(w.relationships[id], source);
    assert e in now && e in done ==> Joins(now[e], target, Other(w.relationships[e], source));
  }

  /** One more row: it is pointed at the target, or removed. */
  lemma RewriteRow(w: World, source: nat, target: nat, done: set<nat>, id: nat)
    requires id in w.relationships && id !in done
    ensures var now := RewrittenRelationships(w, source, target, done);
            RewrittenRelationships(w, source, target, done + {id}) ==
            if Successor(w, source, target, id) == Some(id) then
              now[id := Between(target, Other(w.relationships[id], source))]
            else now - {id}
  {
  }

  function MoveLink(l: RelLink, id: nat, next: nat): RelLink {
    if l.relationship == id then RelLink(l.memory, next, l.role) else l
  }

  /** Nothing moves its links to a row that names the source, except that row itself. */
  lemma NobodyMovesTo(w: World, source: nat, target: nat, done: set<nat>, id: nat)
    requires Valid(w) && Mergeable(w, source, target) && NamesSource(w, source, done + {id}) && id !in done
    ensures forall r | r in done && Successor(w, source, target, r).Some? :: Successor(w, source, target, r).value != id
  {
    forall r | r in done && Successor(w, source, target, r).Some? ensures Successor(w, source, target, r).value != id {
      SuccessorSurvives(w, source, target, r);
    }
  }

  /** A link's place after one more row is its place before, moved on if that was the row. */
  lemma LinkAfterRow(w: World, source: nat, target: nat, done: set<nat>, id: nat, l: RelLink)
    requires id in w.relationships && id !in done && l.relationship in w.relationships
    requires forall r | r in done && r in w.relationships && Successor(w, source, target, r).Some? ::
               Successor(w, source, target, r).value != id
    requires l.relationship in done ==> Successor(w, source, target, l.relationship).Some?
    ensures RewrittenLink(w, source, target, done, l).relationship == id <==> l.relationship == id
    ensures Successor(w, source, target, id).Some? ==>
              RewrittenLink(w, source, target, done + {id}, l) ==
              MoveLink(RewrittenLink(w, source, target, done, l), id, Successor(w, source, target, id).value)
    ensures l.relationship != id ==>
              RewrittenLink(w, source, target, done + {id}, l) == RewrittenLink(w, source, target, done, l)
  {
  }

  /** One more row's links: they move to its successor, or are removed with it. */
  lemma RewriteRowLinks(w: World, source: nat, target: nat, done: set<nat>, id: nat)
    requires id in w.relationships && id !in done
    requires forall r | r in done && r in w.relationships && Successor(w, source, target, r).Some? ::
               Successor(w, source, target, r).value != id
    ensures var now, next := RewrittenLinks(w, source, target, done), Successor(w, source, target, id);
            RewrittenLinks(w, source, target, done + {id}) ==
            if next.None? then set l | l in now && l.relationship != id
            else set l | l in now :: MoveLink(l, id, next.value)
  {
    var now, after, next :=
      RewrittenLinks(w, source, target, done), RewrittenLinks(w, source, target, done + {id}),
        Successor(w, source, target, id);
    var expected :=
      if next.None? then set l | l in now && l.relationship != id
      else set l | l in now :: MoveLink(l, id, next.value);
    forall l | l in after ensures l in expected {
      var l0 :| StillLinked(w, source, target, done + {id}, l0)
          && l == RewrittenLink(w, source, target, done + {id}, l0);
      assert StillLinked(w, source, target, done + {id}, l0) && StillLinked(w, source, target, done, l0);
      LinkAfterRow(w, source, target, done, id, l0);
      assert RewrittenLink(w, source, target, done, l0) in now;
    }
    forall l | l in expected ensures l in after {
      var before :| before in now
          && (if next.None? then l == before && l.relationship != id else l == MoveLink(before, id, next.value));
      var l0 :| StillLinked(w, source, target, done, l0) && before == RewrittenLink(w, source, target, done, l0);
      assert StillLinked(w, source, target, done, l0);
      LinkAfterRow(w, source, target, done, id, l0);
      assert StillLinked(w, source, target, done + {id}, l0);
    }
  }

  /** When every row that names the source is rewritten, the tables are the merged ones but for the cards. */
  lemma RewrittenAll(w: World, source: nat, target: nat, named: set<nat>)
    requires Valid(w) && Mergeable(w, source, target)
    requires forall id :: id in named <==> id in w.relationships && Names(w.relationships[id], source)
    ensures RewrittenLinks(w, source, target, named) == Merge(w, source, target).relLinks
    ensures var now, merged := RewrittenRelationships(w, source, target, named), Merge(w, source, target).relationships;
            && now.Keys == merged.Keys
            && forall id | id in now ::
                 merged[id] == if Affected(w, source, target, id) then now[id].(profile := None) else now[id]
  {
    var now, merged := RewrittenLinks(w, source, target, named), Merge(w, source, target).relLinks;
    forall l | l in w.relLinks ensures l.relationship in w.relationships { }
    forall l | l in w.relLinks && Successor(w, source, target, l.relationship).Some?
      ensures RewrittenLink(w, source, target, named, l) ==
                RelLink(l.memory, Successor(w, source, target, l.relationship).value, l.role)
    {
    }
    forall l | l in merged ensures l in now {
      var l0 :| l0 in w.relLinks && l0.relationship in w.relationships
          && Successor(w, source, target, l0.relationship).Some?
                && l == RelLink(l0.memory, Successor(w, source, target, l0.relationship).value, l0.role);
      assert l == RewrittenLink(w, source, target, named, l0);
    }
    forall id | id in w.relationships && Successor(w, source, target, id) == Some(id)
        && Names(w.relationships[id], source)
      ensures Affected(w, source, target, id)
    {
    }
  }

  /** The relationships that the links of the given ones have moved to or stayed with. */
  ghost function Successors(w: World, source: nat, target: nat, ids: set<nat>): set<nat> {
    set id | id in ids && id in w.relationships && Successor(w, source, target, id).Some? ::
      Successor(w, source, target, id).value
  }

  lemma SuccessorsGrow(w: World, source: nat, target: nat, ids: set<nat>, id: nat)
    requires id in w.relationships
    ensures var next := Successor(w, source, target, id);
            Successors(w, source, target, ids + {id}) ==
            Successors(w, source, target, ids) + if next.Some? then {next.value} else {}
  {
  }

  lemma NextRow(w: World, source: nat, done: set<nat>, todo: set<nat>, id: nat)
    requires NamesSource(w, source, done + todo) && id in todo && done !! todo
    ensures NamesSource(w, source, done + {id}) && id !in done
    ensures done + {id} + (todo - {id}) == done + todo && (done + {id}) !! (todo - {id})
  {
    assert forall x | x in done + {id} :: x in done + todo;
  }

  class PeopleStore {
    var people: map<nat, Person>
    var aliases: set<Alias>
    var links: set<Link>
    var relationships: map<nat, Relationship>
    var relLinks: set<RelLink>

    ghost function State(): World
      reads this
    {
      World(people, aliases, links, relationships, relLinks)
    }

    constructor ()
      ensures State() == World(map[], {}, {}, map[], {}) && Valid(State())
    {
      people, aliases, links, relationships, relLinks := map[], {}, {}, map[], {};
    }

    /** Copies each alias of the source to the target, then deletes the source's. */
    method MoveAliases(source: nat, target: nat)
      requires source != target
      modifies this`aliases
      ensures aliases == set a | a in old(aliases) :: Alias(Renamed(a.person, source, target), a.name)
    {
      var todo := set a | a in aliases && a.person == source;
      ghost var all := todo;
      while todo != {}
        invariant todo <= all
        invariant forall a ::
                    a in aliases <==> a in old(aliases) || (a.person == target && Alias(source, a.name) in all - todo)
        decreases |todo|
      {
        var a :| a in todo;
        aliases := aliases + {Alias(target, a.name)};
        todo := todo - {a};
      }
      aliases := set a | a in aliases && a.person != source;
      forall a | a in old(aliases) ensures Alias(Renamed(a.person, source, target), a.name) in aliases {
        if a.person == source { assert a == Alias(source, a.name) && a in all; }
        else { assert a == Alias(a.person, a.name); }
      }
      forall a | a in aliases
        ensures exists b :: b in old(aliases) && a == Alias(Renamed(b.person, source, target), b.name) {
        if a !in old(aliases) {
          assert Alias(source, a.name) in old(aliases);
        } else {
          assert a == Alias(Renamed(a.person, source, target), a.name);
        }
      }
    }

    method MoveLinks(source: nat, target: nat)
      requires source != target
      modifies this`links
      ensures links == set l | l in old(links) :: Link(l.memory, Renamed(l.person, source, target))
    {
      var copied := set l | l in links && l.person == source :: Link(l.memory, target);
      links := set l | l in links + copied && l.person != source;
      forall l | l in old(links) ensures Link(l.memory, Renamed(l.person, source, target)) in links {
        if l.person == source {
          assert Link(l.memory, target) in copied;
        } else {
          assert l == Link(l.memory, l.person);
        }
      }
      forall l | l in links
        ensures exists m :: m in old(links) && l == Link(m.memory, Renamed(m.person, source, target)) {
        if l in old(links) { assert l == Link(l.memory, Renamed(l.person, source, target)); }
      }
    }

    /** Rewrites one relationship row that names the source. */
    method RewriteRelationship(id: nat, source: nat, target: nat, affected: set<nat>, ghost w: World,
          ghost done: set<nat>)
      returns (affected': set<nat>)
      requires Valid(w) && Mergeable(w, source, target) && NamesSource(w, source, done + {id}) && id !in done
      requires relationships == RewrittenRelationships(w, source, target, done)
      requires relLinks == RewrittenLinks(w, source, target, done)
      requires affected == Successors(w, source, target, done)
      modifies this`relationships, this`relLinks
      ensures relationships == RewrittenRelationships(w, source, target, done + {id})
      ensures relLinks == RewrittenLinks(w, source, target, done + {id})
      ensures affected' == Successors(w, source, target, done + {id})
    {
      SuccessorsGrow(w, source, target, done, id);
      RewriteRow(w, source, target, done, id);
      NobodyMovesTo(w, source, target, done, id);
      RewriteRowLinks(w, source, target, done, id);
      var other := Other(relationships[id], source);
      if other == target {
        relLinks := set l | l in relLinks && l.relationship != id;
        relationships := relationships - {id};
        return affected;
      }
      ghost var existing := Existing(w.relationships, target, other);
      if e :| e in relationships && Joins(relationships[e], target, other) {
        LookupIsStable(w, source, target, done, id, e);
        relLinks := set l | l in relLinks :: MoveLink(l, id, e);
        relationships := relationships - {id};
        return affected + {e};
      } else {
        if existing.Some? {
          LookupIsStable(w, source, target, done, id, existing.value);
        }
        LinksStay(relLinks, id);
        relationships := relationships[id := Between(target, other)];
        return affected + {id};
      }
    }

    /** Runs over every relationship that names the source. */
    method RewriteNamed(source: nat, target: nat, ghost w: World) returns (affected: set<nat>, ghost named: set<nat>)
      requires Valid(w) && Mergeable(w, source, target)
      requires relationships == w.relationships && relLinks == w.relLinks
      modifies this`relationships, this`relLinks
      ensures forall id :: id in named <==> id in w.relationships && Names(w.relationships[id], source)
      ensures relationships == RewrittenRelationships(w, source, target, named)
      ensures relLinks == RewrittenLinks(w, source, target, named)
      ensures affected == Successors(w, source, target, named)
    {
      var todo := set id | id in relationships && Names(relationships[id], source);
      ghost var done: set<nat> := {};
      named, affected := todo, {};
      NothingRewritten(w, source, target);
      while todo != {}
        invariant done + todo == named && done !! todo
        invariant relationships == RewrittenRelationships(w, source, target, done)
        invariant relLinks == RewrittenLinks(w, source, target, done)
        invariant affected == Successors(w, source, target, done)
        decreases |todo|
      {
        var id :| id in todo;
        NextRow(w, source, done, todo, id);
        affected := RewriteRelationship(id, source, target, affected, w, done);
        todo, done := todo - {id}, done + {id};
      }
      assert done == named;
    }

    /** Rewrites the relationship tables, then clears the cards of the relationships affected. */
    method RewriteRelationships(source: nat, target: nat, ghost w: World) returns (affected: set<nat>)
      requires Valid(w) && Mergeable(w, source, target)
      requires relationships == w.relationships && relLinks == w.relLinks
      modifies this`relationships, this`relLinks
      ensures relationships == Merge(w, source, target).relationships
      ensures relLinks == Merge(w, source, target).relLinks
      ensures forall id :: id in affected <==> Affected(w, source, target, id)
    {
      ghost var named;
      affected, named := RewriteNamed(source, target, w);
      RewrittenAll(w, source, target, named);
      AffectedAre(w, source, target, named, affected);
      ghost var before := relationships;
      ClearCards(affected);
      ClearedIsMerged(w, source, target, before, relationships, affected);
    }

    method ClearCards(affected: set<nat>)
      modifies this`relationships
      ensures relationships.Keys == old(relationships.Keys)
      ensures forall id | id in relationships ::
                relationships[id] ==
                if id in affected then old(relationships)[id].(profile := None) else old(relationships)[id]
    {
      relationships := map id | id in relationships ::
        if id in affected then relationships[id].(profile := None) else relationships[id];
    }

    /**
      Merges atomically, or reports why not and changes nothing.  A merge that was already done is
      reported as done again, with nothing affected.
     */
    method MergePerson(source: nat, target: nat) returns (r: Result<set<nat>, Error>)
      requires Valid(State())
      modifies this
      ensures Valid(State())
      ensures r.Err? ==> State() == old(State())
      ensures r.Ok? <==> old(Mergeable(State(), source, target) ||
                             (source != target && source in people && target in people
                             && people[source].status == Merged(target)))
      ensures r.Ok? && old(IsActive(people, source)) ==> State() == Merge(old(State()), source, target)
      ensures r.Ok? && old(IsActive(people, source)) ==>
                forall id :: id in r.value <==> Affected(old(State()), source, target, id)
      ensures r.Ok? && !old(IsActive(people, source)) ==> State() == old(State()) && r.value == {}
      ensures r.Ok? && old(IsActive(people, source)) ==>
                && people.Keys == old(people.Keys)
                && people[target] == Person(Active, None)
                && people[source].status == Merged(target) && people[source].profile == old(people[source].profile)
                && forall p | p in people && p != source && p != target :: people[p] == old(people)[p]
      ensures r.Err? ==>
                r.error == if source == target then SamePerson
                           else if source !in people || target !in people then NotFound
                           else if people[source].status.Merged? then MergedElsewhere
                           else NotActive
    {
      if source == target {
        return Err(SamePerson);
      }
      if source !in people || target !in people {
        return Err(NotFound);
      }
      if people[source].status.Merged? {
        return if people[source].status.into == target then Ok({}) else Err(MergedElsewhere);
      }
      if people[target].status.Merged? {
        return Err(NotActive);
      }
      ghost var w := State();
      MoveAliases(source, target);
      MoveLinks(source, target);
      var affected := RewriteRelationships(source, target, w);
      people := people[source := people[source].(status := Merged(target))];
      people := people[target := people[target].(profile := None)];
      MergeKeepsValid(w, source, target);
      return Ok(affected);
    }

    /** Repeating a merge changes nothing, however often it is repeated. */
    method MergeTwice(source: nat, target: nat)
      returns (first: Result<set<nat>, Error>, second: Result<set<nat>, Error>)
      requires Valid(State())
      modifies this
      ensures old(Mergeable(State(), source, target)) ==>
                first.Ok? && second == Ok({}) && State() == Merge(old(State()), source, target)
    {
      first := MergePerson(source, target);
      second := MergePerson(source, target);
    }
  }

  lemma AffectedAre(w: World, source: nat, target: nat, named: set<nat>, affected: set<nat>)
    requires forall id :: id in named <==> id in w.relationships && Names(w.relationships[id], source)
    requires affected == Successors(w, source, target, named)
    ensures forall id :: id in affected <==> Affected(w, source, target, id)
  {
    forall id ensures id in affected <==> Affected(w, source, target, id) {
      if Affected(w, source, target, id) {
        var r :| r in w.relationships && Names(w.relationships[r], source)
            && Successor(w, source, target, r) == Some(id);
        assert r in named;
      }
    }
  }

  lemma ClearedIsMerged(w: World, source: nat, target: nat, now: map<nat, Relationship>,
        cleared: map<nat, Relationship>, affected: set<nat>)
    requires source in w.people && target in w.people
    requires now.Keys == Merge(w, source, target).relationships.Keys == cleared.Keys
    requires forall id :: id in affected <==> Affected(w, source, target, id)
    requires forall id | id in now :: cleared[id] == if id in affected then now[id].(profile := None) else now[id]
    requires forall id | id in now ::
               Merge(w, source, target).relationships[id] ==
               if Affected(w, source, target, id) then now[id].(profile := None) else now[id]
    ensures cleared == Merge(w, source, target).relationships
  {
    var merged := Merge(w, source, target).relationships;
    forall id | id in merged ensures cleared[id] == merged[id] {
      assert id in now;
    }
  }

  lemma LinksStay(relLinks: set<RelLink>, id: nat)
    ensures relLinks == set l | l in relLinks :: MoveLink(l, id, id)
  {
    forall l ensures MoveLink(l, id, id) == l { }
    assert forall l | l in relLinks :: MoveLink(l, id, id) in set l | l in relLinks :: MoveLink(l, id, id);
  }

  lemma NothingRewritten(w: World, source: nat, target: nat)
    requires Valid(w)
    ensures RewrittenRelationships(w, source, target, {}) == w.relationships
    ensures RewrittenLinks(w, source, target, {}) == w.relLinks
  {
    forall l | l in w.relLinks ensures l in RewrittenLinks(w, source, target, {}) {
      assert l == RewrittenLink(w, source, target, {}, l);
    }
  }
}

/**
  The lifecycle of Memories, inferences and hypotheses, and the provenance they keep.

  Rows are never deleted, so a row's position is its id and later rows have greater ids.
  What the model returns is arbitrary; the store decides which of it takes effect.
 */
module MemoryLifecycle {
  import opened Wrappers

  datatype Owner = PersonOwner(id: nat) | RelationshipOwner(id: nat) | UserOwner

  datatype Status = Active | Superseded | Retracted

  datatype Memory =
    Memory(inferred: bool, byReasoner: bool, status: Status, supersedes: Option<nat>, owners: set<Owner>)

  /** An inference is derived from a Memory that supports it. */
  datatype Edge = Edge(derived: nat, source: nat)

  datatype HypothesisStatus = Open | Promoted | Rejected | HypothesisSuperseded | Retired

  datatype Hypothesis = Hypothesis(owner: Owner, text: string, status: HypothesisStatus, promoted: Option<nat>)

  datatype Role = Support | Counter

  datatype Evidence = Evidence(hypothesis: nat, memory: nat, role: Role)

  /** `endpoints` holds the two people of each relationship. */
  datatype Store = Store(memories: seq<Memory>, edges: set<Edge>, hypotheses: seq<Hypothesis>, evidence: set<Evidence>,
                         endpoints: map<nat, (nat, nat)>)

  // ----- What callers and models ask for

  /** A new Memory from extraction; `repeats` says it nearly repeats one the batch already has. */
  datatype Candidate = Candidate(inferred: bool, owners: set<Owner>, supersedes: Option<nat>, repeats: bool)

  /** An inference: its cited sources, and the Memories whose wording it nearly repeats. */
  datatype Inference = Inference(sources: set<nat>, similar: set<nat>)

  datatype Claim = Claim(hypothesis: Option<nat>, text: string, cited: set<(nat, Role)>)

  datatype Transition = Transition(hypothesis: nat, status: HypothesisStatus, promoted: Option<nat>)

  // ----- Memories

  predicate IsEvidence(memories: seq<Memory>, id: nat) {
    id < |memories| && memories[id].status.Active? && !memories[id].inferred
  }

  function SetStatus(s: Store, id: nat, status: Status): Store
    requires id < |s.memories|
  {
    s.(memories := s.memories[id := s.memories[id].(status := status)])
  }

  function AddMemory(s: Store, m: Memory): Store {
    s.(memories := s.memories + [m])
  }

  /** A correction may say anew whether the Memory is about the user. */
  function Corrected(owners: set<Owner>, aboutUser: Option<bool>): set<Owner> {
    if aboutUser.None? then owners else if aboutUser.value then owners + {UserOwner} else owners - {UserOwner}
  }

  /** A human correction: the replacement inherits the links, and the original is superseded. */
  function SupersedeMemory(s: Store, id: nat, aboutUser: Option<bool>): Store {
    if id >= |s.memories| || !s.memories[id].status.Active? then s
    else SetStatus(AddMemory(s, Memory(false, false, Active, Some(id), Corrected(s.memories[id].owners, aboutUser))),
      id, Superseded)
  }

  function RetractMemory(s: Store, id: nat): Store {
    if id >= |s.memories| || s.memories[id].status.Retracted? then s else SetStatus(s, id, Retracted)
  }

  /** One extracted Memory; `comparisons` are the rows shown to the extractor, as the batch began. */
  function ExtractOne(s: Store, comparisons: set<nat>, c: Candidate): Store {
    var superseded := c.supersedes.Some? && c.supersedes.value in comparisons && c.supersedes.value < |s.memories|;
    if c.repeats then s
    else
      var added := AddMemory(s, Memory(c.inferred, false, Active, if superseded then c.supersedes else None, c.owners));
      if superseded then SetStatus(added, c.supersedes.value, Superseded) else added
  }

  function ExtractAll(s: Store, comparisons: set<nat>, candidates: seq<Candidate>): Store {
    if candidates == [] then s
    else ExtractOne(ExtractAll(s, comparisons, candidates[..|candidates| - 1]), comparisons,
      candidates[|candidates| - 1])
  }

  // ----- Inferences

  /** A relationship's sources are linked to it, or to both of its people; an unknown one has none. */
  predicate Concerns(owners: set<Owner>, endpoints: map<nat, (nat, nat)>, o: Owner) {
    match o
    case RelationshipOwner(id) =>
      id in endpoints &&
      (o in owners || (PersonOwner(endpoints[id].0) in owners && PersonOwner(endpoints[id].1) in owners))
    case _ => o in owners
  }

  function SourceIds(memories: seq<Memory>, endpoints: map<nat, (nat, nat)>, o: Owner): set<nat> {
    set id | 0 <= id < |memories| && IsEvidence(memories, id) && Concerns(memories[id].owners, endpoints, o)
  }

  /** The owner's active inferences as the pass began, in row order. */
  function KnownInferences(memories: seq<Memory>, o: Owner, n: nat): seq<nat>
    requires n <= |memories|
  {
    if n == 0 then []
    else
      var before, m := KnownInferences(memories, o, n - 1), memories[n - 1];
      if m.inferred && m.byReasoner && m.status.Active? && o in m.owners then before + [n - 1] else before
  }

  function FirstSimilar(known: seq<nat>, similar: set<nat>): Option<nat> {
    if known == [] then None
    else if known[0] in similar then Some(known[0])
    else FirstSimilar(known[1..], similar)
  }

  function ValidSources(memories: seq<Memory>, sourceIds: set<nat>, cited: set<nat>): set<nat> {
    set id | id in cited && id in sourceIds && IsEvidence(memories, id)
  }

  function EdgesFrom(derived: nat, sources: set<nat>): set<Edge> {
    set id | id in sources :: Edge(derived, id)
  }

  /** An inference without a valid source is dropped; one that repeats a known one only adds sources. */
  function InferOne(s: Store, o: Owner, known: seq<nat>, sourceIds: set<nat>, item: Inference): Store {
    var sources := ValidSources(s.memories, sourceIds, item.sources);
    if sources == {} then s
    else
      match FirstSimilar(known, item.similar)
      case Some(existing) => s.(edges := s.edges + EdgesFrom(existing, sources))
      case None =>
        AddMemory(s, Memory(true, true, Active, None, {o})).(edges := s.edges + EdgesFrom(|s.memories|, sources))
  }

  function InferAll(s: Store, o: Owner, known: seq<nat>, sourceIds: set<nat>, items: seq<Inference>): Store {
    if items == [] then s
    else InferOne(InferAll(s, o, known, sourceIds, items[..|items| - 1]), o, known, sourceIds, items[|items| - 1])
  }

  /** Only an active inference of this owner that the model was shown can be retracted. */
  function RetractInference(s: Store, o: Owner, shown: set<nat>, id: nat): Store {
    if id in shown && id < |s.memories| && s.memories[id].inferred && s.memories[id].status.Active?
        && o in s.memories[id].owners then
      SetStatus(s, id, Retracted)
    else s
  }

  function RetractInferences(s: Store, o: Owner, shown: set<nat>, ids: seq<nat>): Store {
    if ids == [] then s
    else RetractInference(RetractInferences(s, o, shown, ids[..|ids| - 1]), o, shown, ids[|ids| - 1])
  }

  // ----- Hypotheses

  predicate IsOpen(hypotheses: seq<Hypothesis>, o: Owner, id: nat) {
    id < |hypotheses| && hypotheses[id].owner == o && hypotheses[id].status.Open?
  }

  function FirstOpen(hypotheses: seq<Hypothesis>, o: Owner, text: string, from: nat): (r: Option<nat>)
    ensures r.Some? ==> from <= r.value && IsOpen(hypotheses, o, r.value) && hypotheses[r.value].text == text
    ensures forall id | from <= id < (if r.Some? then r.value else |hypotheses|) ::
              !(IsOpen(hypotheses, o, id) && hypotheses[id].text == text)
    decreases |hypotheses| - from
  {
    if from >= |hypotheses| then None
    else if hypotheses[from].owner == o && hypotheses[from].status.Open? && hypotheses[from].text == text then
      Some(from)
    else FirstOpen(hypotheses, o, text, from + 1)
  }

  /** The citations that count: shown sources that still are active evidence. */
  function Supporting(memories: seq<Memory>, sourceIds: set<nat>, cited: set<(nat, Role)>): set<(nat, Role)> {
    set c | c in cited && c.0 in sourceIds && IsEvidence(memories, c.0)
  }

  function EvidenceFor(hypothesis: nat, supporting: set<(nat, Role)>): set<Evidence> {
    set c | c in supporting :: Evidence(hypothesis, c.0, c.1)
  }

  /** Which row a claim updates: the one it names, or an open one of the same wording. */
  function ClaimTarget(hypotheses: seq<Hypothesis>, o: Owner, claim: Claim): (r: Option<nat>)
    ensures r.Some? ==> IsOpen(hypotheses, o, r.value)
  {
    match claim.hypothesis
    case Some(id) => if IsOpen(hypotheses, o, id) then Some(id) else None
    case None => FirstOpen(hypotheses, o, claim.text, 0)
  }

  function ClaimOne(s: Store, o: Owner, shown: set<nat>, sourceIds: set<nat>, claim: Claim): Store {
    var supporting := Supporting(s.memories, sourceIds, claim.cited);
    if claim.hypothesis.Some? && claim.hypothesis.value !in shown then s
    else if supporting == {} then s
    else
      match ClaimTarget(s.hypotheses, o, claim)
      case Some(id) =>
        s.(hypotheses := s.hypotheses[id := s.hypotheses[id].(text := claim.text)],
          evidence := s.evidence + EvidenceFor(id, supporting))
      case None =>
        if claim.hypothesis.Some? && claim.hypothesis.value < |s.hypotheses| then s
        else
          s.(hypotheses := s.hypotheses + [Hypothesis(o, claim.text, Open, None)],
             evidence := s.evidence + EvidenceFor(|s.hypotheses|, supporting))
  }

  function ClaimAll(s: Store, o: Owner, shown: set<nat>, sourceIds: set<nat>, claims: seq<Claim>): Store {
    if claims == [] then s
    else ClaimOne(ClaimAll(s, o, shown, sourceIds, claims[..|claims| - 1]), o, shown, sourceIds, claims[|claims| - 1])
  }

  /** A transition takes effect on an open, shown hypothesis; promotion needs an active Memory of the owner. */
  predicate TransitionAllowed(s: Store, o: Owner, shown: set<nat>, t: Transition) {
    && t.hypothesis in shown && IsOpen(s.hypotheses, o, t.hypothesis)
    && (t.status.Promoted? <==> t.promoted.Some?)
    && (t.promoted.Some? ==>
          t.promoted.value < |s.memories| && s.memories[t.promoted.value].status.Active?
          && o in s.memories[t.promoted.value].owners)
  }

  function TransitionOne(s: Store, o: Owner, shown: set<nat>, t: Transition): Store {
    if TransitionAllowed(s, o, shown, t) then
      var ended := s.hypotheses[t.hypothesis].(status := t.status, promoted := t.promoted);
      s.(hypotheses := s.hypotheses[t.hypothesis := ended])
    else s
  }

  function TransitionAll(s: Store, o: Owner, shown: set<nat>, ts: seq<Transition>): Store {
    if ts == [] then s else TransitionOne(TransitionAll(s, o, shown, ts[..|ts| - 1]), o, shown, ts[|ts| - 1])
  }

  // ----- Provenance

  /** No inference feeds on an inference. */
  ghost predicate EdgesValid(s: Store) {
    forall e | e in s.edges ::
      && e.derived < |s.memories| && s.memories[e.derived].inferred
      && e.source < |s.memories| && !s.memories[e.source].inferred
  }

  ghost predicate HasSource(s: Store, id: nat) {
    exists e :: e in s.edges && e.derived == id
  }

  ghost predicate HasEvidence(s: Store, h: nat) {
    exists e :: e in s.evidence && e.hypothesis == h
  }

  ghost predicate Valid(s: Store) {
    && EdgesValid(s)
    && (forall id: nat | id < |s.memories| && s.memories[id].byReasoner :: s.memories[id].inferred && HasSource(s, id))
    && (forall e | e in s.evidence ::
          e.hypothesis < |s.hypotheses| && e.memory < |s.memories| && !s.memories[e.memory].inferred)
    && (forall h: nat | h < |s.hypotheses| :: HasEvidence(s, h))
    && (forall h: nat | h < |s.hypotheses| :: s.hypotheses[h].status.Promoted? <==> s.hypotheses[h].promoted.Some?)
    && (forall id: nat | id < |s.memories| && s.memories[id].supersedes.Some? :: s.memories[id].supersedes.value < id)
  }

  /** What may happen to one Memory: a status other than active never becomes active again. */
  ghost predicate MemoryEvolves(m: Memory, m': Memory) {
    && m'.inferred == m.inferred && m'.byReasoner == m.byReasoner && m'.supersedes == m.supersedes
    && (!m.status.Active? ==> !m'.status.Active?)
  }

  ghost predicate HypothesisEvolves(h: Hypothesis, h': Hypothesis) {
    h'.owner == h.owner && (!h.status.Open? ==> h' == h)
  }

  ghost predicate Evolves(s: Store, s': Store) {
    && |s.memories| <= |s'.memories| && |s.hypotheses| <= |s'.hypotheses|
    && (forall id | 0 <= id < |s.memories| :: MemoryEvolves(s.memories[id], s'.memories[id]))
    && (forall h | 0 <= h < |s.hypotheses| :: HypothesisEvolves(s.hypotheses[h], s'.hypotheses[h]))
    && s.edges <= s'.edges && s.evidence <= s'.evidence
  }

  ghost predicate SameOwners(s: Store, s': Store) {
    && |s.memories| <= |s'.memories|
    && forall id | 0 <= id < |s.memories| :: s'.memories[id].owners == s.memories[id].owners
  }

  ghost predicate Keeps(s: Store, s': Store) {
    Valid(s') && Evolves(s, s') && SameOwners(s, s')
  }

  lemma EvolvesTransitively(s: Store, s': Store, s'': Store)
    requires Evolves(s, s') && Evolves(s', s'')
    ensures Evolves(s, s'')
    ensures SameOwners(s, s') && SameOwners(s', s'') ==> SameOwners(s, s'')
  {
    forall id | 0 <= id < |s.memories| ensures MemoryEvolves(s.memories[id], s''.memories[id]) {
      assert MemoryEvolves(s.memories[id], s'.memories[id]) && MemoryEvolves(s'.memories[id], s''.memories[id]);
    }
    forall h | 0 <= h < |s.hypotheses| ensures HypothesisEvolves(s.hypotheses[h], s''.hypotheses[h]) {
      assert HypothesisEvolves(s.hypotheses[h], s'.hypotheses[h])
             && HypothesisEvolves(s'.hypotheses[h], s''.hypotheses[h]);
    }
  }

  lemma StatusKeeps(s: Store, id: nat, status: Status)
    requires Valid(s) && id < |s.memories| && !status.Active?
    ensures Keeps(s, SetStatus(s, id, status))
  {
    var s' := SetStatus(s, id, status);
    forall i: nat | i < |s'.memories| && s'.memories[i].byReasoner ensures HasSource(s', i) { assert HasSource(s, i); }
    forall h: nat | h < |s'.hypotheses| ensures HasEvidence(s', h) { assert HasEvidence(s, h); }
  }

  lemma AddKeeps(s: Store, m: Memory)
    requires Valid(s) && !m.byReasoner && (m.supersedes.Some? ==> m.supersedes.value < |s.memories|)
    ensures Keeps(s, AddMemory(s, m))
  {
    var s' := AddMemory(s, m);
    forall i: nat | i < |s'.memories| && s'.memories[i].byReasoner ensures s'.memories[i].inferred && HasSource(s', i) {
      assert HasSource(s, i);
    }
    forall h: nat | h < |s'.hypotheses| ensures HasEvidence(s', h) { assert HasEvidence(s, h); }
  }

  lemma SupersedeKeeps(s: Store, id: nat, aboutUser: Option<bool>)
    requires Valid(s)
    ensures Keeps(s, SupersedeMemory(s, id, aboutUser))
  {
    if id < |s.memories| && s.memories[id].status.Active? {
      var replacement := Memory(false, false, Active, Some(id), Corrected(s.memories[id].owners, aboutUser));
      AddKeeps(s, replacement);
      StatusKeeps(AddMemory(s, replacement), id, Superseded);
      EvolvesTransitively(s, AddMemory(s, replacement), SupersedeMemory(s, id, aboutUser));
    }
  }

  lemma RetractKeeps(s: Store, id: nat)
    requires Valid(s)
    ensures Keeps(s, RetractMemory(s, id))
  {
    if id < |s.memories| { StatusKeeps(s, id, Retracted); }
  }

  lemma ExtractOneKeeps(s: Store, comparisons: set<nat>, c: Candidate)
    requires Valid(s)
    ensures Keeps(s, ExtractOne(s, comparisons, c))
  {
    var superseded := c.supersedes.Some? && c.supersedes.value in comparisons && c.supersedes.value < |s.memories|;
    var m := Memory(c.inferred, false, Active, if superseded then c.supersedes else None, c.owners);
    AddKeeps(s, m);
    if superseded && !c.repeats {
      StatusKeeps(AddMemory(s, m), c.supersedes.value, Superseded);
      EvolvesTransitively(s, AddMemory(s, m), ExtractOne(s, comparisons, c));
    }
  }

  lemma {:induction false} ExtractKeeps(s: Store, comparisons: set<nat>, candidates: seq<Candidate>)
    requires Valid(s)
    ensures Keeps(s, ExtractAll(s, comparisons, candidates))
  {
    if candidates != [] {
      var before := ExtractAll(s, comparisons, candidates[..|candidates| - 1]);
      ExtractKeeps(s, comparisons, candidates[..|candidates| - 1]);
      ExtractOneKeeps(before, comparisons, candidates[|candidates| - 1]);
      EvolvesTransitively(s, before, ExtractAll(s, comparisons, candidates));
    }
  }

  /** The known inferences are inferences, and stay so while the pass runs. */
  ghost predicate KnownValid(s: Store, known: seq<nat>) {
    forall k | 0 <= k < |known| :: known[k] < |s.memories| && s.memories[known[k]].inferred
  }

  lemma {:induction false} KnownAreInferences(s: Store, o: Owner, n: nat)
    requires n <= |s.memories|
    ensures KnownValid(s, KnownInferences(s.memories, o, n))
  {
    if n > 0 { KnownAreInferences(s, o, n - 1); }
  }

  lemma {:induction false} FirstSimilarIsKnown(known: seq<nat>, similar: set<nat>)
    ensures FirstSimilar(known, similar).Some? ==> FirstSimilar(known, similar).value in known
  {
    if known != [] { FirstSimilarIsKnown(known[1..], similar); }
  }

  lemma InferOneKeeps(s: Store, o: Owner, known: seq<nat>, sourceIds: set<nat>, item: Inference)
    requires Valid(s) && KnownValid(s, known)
    ensures Keeps(s, InferOne(s, o, known, sourceIds, item))
            && KnownValid(InferOne(s, o, known, sourceIds, item), known)
  {
    var s', sources := InferOne(s, o, known, sourceIds, item), ValidSources(s.memories, sourceIds, item.sources);
    FirstSimilarIsKnown(known, item.similar);
    if sources != {} {
      var source :| source in sources;
      assert FirstSimilar(known, item.similar).None? ==> Edge(|s.memories|, source) in s'.edges;
      forall i: nat | i < |s'.memories| && s'.memories[i].byReasoner
        ensures s'.memories[i].inferred && HasSource(s', i) {
        if i < |s.memories| { assert HasSource(s, i); }
      }
      forall h: nat | h < |s'.hypotheses| ensures HasEvidence(s', h) { assert HasEvidence(s, h); }
    }
  }

  lemma {:induction false} InferKeeps(s: Store, o: Owner, known: seq<nat>, sourceIds: set<nat>, items: seq<Inference>)
    requires Valid(s) && KnownValid(s, known)
    ensures Keeps(s, InferAll(s, o, known, sourceIds, items))
            && KnownValid(InferAll(s, o, known, sourceIds, items), known)
  {
    if items != [] {
      var before := InferAll(s, o, known, sourceIds, items[..|items| - 1]);
      InferKeeps(s, o, known, sourceIds, items[..|items| - 1]);
      InferOneKeeps(before, o, known, sourceIds, items[|items| - 1]);
      EvolvesTransitively(s, before, InferAll(s, o, known, sourceIds, items));
    }
  }

  lemma {:induction false} RetractInferencesKeeps(s: Store, o: Owner, shown: set<nat>, ids: seq<nat>)
    requires Valid(s)
    ensures Keeps(s, RetractInferences(s, o, shown, ids))
  {
    if ids != [] {
      var before := RetractInferences(s, o, shown, ids[..|ids| - 1]);
      RetractInferencesKeeps(s, o, shown, ids[..|ids| - 1]);
      if RetractInference(before, o, shown, ids[|ids| - 1]) != before {
        StatusKeeps(before, ids[|ids| - 1], Retracted);
      }
      EvolvesTransitively(s, before, RetractInferences(s, o, shown, ids));
    }
  }

  /** New evidence for a row that is updated in place, or for one that is added. */
  lemma SupportKeeps(s: Store, s': Store, h: nat, supporting: set<(nat, Role)>)
    requires Valid(s) && supporting != {}
    requires forall c | c in supporting :: IsEvidence(s.memories, c.0)
    requires s'.memories == s.memories && s'.edges == s.edges
    requires s'.evidence == s.evidence + EvidenceFor(h, supporting)
    requires h < |s'.hypotheses| && |s.hypotheses| <= |s'.hypotheses| <= |s.hypotheses| + 1
    requires |s'.hypotheses| > |s.hypotheses| ==> h == |s.hypotheses|
    requires s'.hypotheses[h].status.Open? && s'.hypotheses[h].promoted.None?
    requires forall i | 0 <= i < |s.hypotheses| && i != h :: s'.hypotheses[i] == s.hypotheses[i]
    requires h < |s.hypotheses| ==> s.hypotheses[h].status.Open? && s.hypotheses[h].owner == s'.hypotheses[h].owner
    ensures Keeps(s, s')
  {
    var c :| c in supporting;
    assert Evidence(h, c.0, c.1) in s'.evidence;
    forall i: nat | i < |s'.memories| && s'.memories[i].byReasoner ensures HasSource(s', i) { assert HasSource(s, i); }
    forall i: nat | i < |s'.hypotheses| ensures HasEvidence(s', i) {
      if i != h { assert HasEvidence(s, i); }
    }
  }

  lemma ClaimOneKeeps(s: Store, o: Owner, shown: set<nat>, sourceIds: set<nat>, claim: Claim)
    requires Valid(s)
    ensures Keeps(s, ClaimOne(s, o, shown, sourceIds, claim))
  {
    var s', target := ClaimOne(s, o, shown, sourceIds, claim), ClaimTarget(s.hypotheses, o, claim);
    if s' != s {
      var h := if target.Some? then target.value else |s.hypotheses|;
      SupportKeeps(s, s', h, Supporting(s.memories, sourceIds, claim.cited));
    }
  }

  lemma {:induction false} ClaimKeeps(s: Store, o: Owner, shown: set<nat>, sourceIds: set<nat>, claims: seq<Claim>)
    requires Valid(s)
    ensures Keeps(s, ClaimAll(s, o, shown, sourceIds, claims))
  {
    if claims != [] {
      var before := ClaimAll(s, o, shown, sourceIds, claims[..|claims| - 1]);
      ClaimKeeps(s, o, shown, sourceIds, claims[..|claims| - 1]);
      ClaimOneKeeps(before, o, shown, sourceIds, claims[|claims| - 1]);
      EvolvesTransitively(s, before, ClaimAll(s, o, shown, sourceIds, claims));
    }
  }

  lemma TransitionOneKeeps(s: Store, o: Owner, shown: set<nat>, t: Transition)
    requires Valid(s)
    ensures Keeps(s, TransitionOne(s, o, shown, t))
  {
    var s' := TransitionOne(s, o, shown, t);
    forall i: nat | i < |s'.memories| && s'.memories[i].byReasoner ensures HasSource(s', i) { assert HasSource(s, i); }
    forall h: nat | h < |s'.hypotheses| ensures HasEvidence(s', h) { assert HasEvidence(s, h); }
  }

  lemma {:induction false} TransitionKeeps(s: Store, o: Owner, shown: set<nat>, ts: seq<Transition>)
    requires Valid(s)
    ensures Keeps(s, TransitionAll(s, o, shown, ts))
  {
    if ts != [] {
      var before := TransitionAll(s, o, shown, ts[..|ts| - 1]);
      TransitionKeeps(s, o, shown, ts[..|ts| - 1]);
      TransitionOneKeeps(before, o, shown, ts[|ts| - 1]);
      EvolvesTransitively(s, before, TransitionAll(s, o, shown, ts));
    }
  }

  // ----- Runs

  datatype Event =
    | AddManual(owners: set<Owner>)
    | Supersede(id: nat, aboutUser: Option<bool>)
    | Retract(id: nat)
    | Extract(comparisons: set<nat>, candidates: seq<Candidate>)
    | Infer(owner: Owner, items: seq<Inference>, shown: set<nat>, retractions: seq<nat>)
    | Hypothesize(owner: Owner, shown: set<nat>, claims: seq<Claim>, transitions: seq<Transition>)
    | Relate(relationship: nat, a: nat, b: nat)
    | Merge(source: nat, target: nat, joined: map<nat, Option<nat>>)

  /** Where a merge puts a link; `joined` says what becomes of the links of each relationship it removes. */
  function Moved(o: Owner, source: nat, target: nat, joined: map<nat, Option<nat>>): Option<Owner> {
    match o
    case PersonOwner(id) => Some(if id == source then PersonOwner(target) else o)
    case RelationshipOwner(id) =>
      if id !in joined then Some(o) else if joined[id].Some? then Some(RelationshipOwner(joined[id].value)) else None
    case UserOwner => Some(o)
  }

  function MovedOwners(owners: set<Owner>, source: nat, target: nat, joined: map<nat, Option<nat>>): set<Owner> {
    set o | o in owners && Moved(o, source, target, joined).Some? :: Moved(o, source, target, joined).value
  }

  function Renamed(id: nat, source: nat, target: nat): nat {
    if id == source then target else id
  }

  /** A merge of people moves links and endpoints; rows, edges and hypotheses stay as they are. */
  function MergeLinks(s: Store, source: nat, target: nat, joined: map<nat, Option<nat>>): Store {
    s.(memories := seq(|s.memories|, i requires 0 <= i < |s.memories| =>
                     s.memories[i].(owners := MovedOwners(s.memories[i].owners, source, target, joined))),
       endpoints := map r | r in s.endpoints && r !in joined ::
                     (Renamed(s.endpoints[r].0, source, target), Renamed(s.endpoints[r].1, source, target)))
  }

  /** The rows shown to the extractor that still are active evidence when the batch commits. */
  function Comparisons(memories: seq<Memory>, shown: set<nat>): set<nat> {
    set id | id in shown && IsEvidence(memories, id)
  }

  function ActOnInferences(s: Store, o: Owner, items: seq<Inference>, shown: set<nat>, retractions: seq<nat>): Store {
    var inferred :=
      InferAll(s, o, KnownInferences(s.memories, o, |s.memories|), SourceIds(s.memories, s.endpoints, o), items);
    RetractInferences(inferred, o, shown, retractions)
  }

  function ActOnHypotheses(s: Store, o: Owner, shown: set<nat>, claims: seq<Claim>,
        transitions: seq<Transition>): Store {
    TransitionAll(ClaimAll(s, o, shown, SourceIds(s.memories, s.endpoints, o), claims), o, shown, transitions)
  }

  function Step(s: Store, e: Event): Store {
    match e
    case AddManual(owners) => AddMemory(s, Memory(false, false, Active, None, owners))
    case Supersede(id, aboutUser) => SupersedeMemory(s, id, aboutUser)
    case Retract(id) => RetractMemory(s, id)
    case Extract(shown, candidates) => ExtractAll(s, Comparisons(s.memories, shown), candidates)
    case Infer(o, items, shown, retractions) => ActOnInferences(s, o, items, shown, retractions)
    case Hypothesize(o, shown, claims, transitions) => ActOnHypotheses(s, o, shown, claims, transitions)
    case Relate(relationship, a, b) =>
      if relationship in s.endpoints then s else s.(endpoints := s.endpoints[relationship := (a, b)])
    case Merge(source, target, joined) => MergeLinks(s, source, target, joined)
  }

  /** What keeps rows, but for their owners, edges and hypotheses, keeps their provenance. */
  lemma RelinkKeeps(s: Store, s': Store)
    requires Valid(s) && |s'.memories| == |s.memories|
    requires forall id | 0 <= id < |s.memories| :: s'.memories[id] == s.memories[id].(owners := s'.memories[id].owners)
    requires s'.edges == s.edges && s'.hypotheses == s.hypotheses && s'.evidence == s.evidence
    ensures Valid(s') && Evolves(s, s')
  {
    forall i: nat | i < |s'.memories| && s'.memories[i].byReasoner ensures HasSource(s', i) { assert HasSource(s, i); }
    forall h: nat | h < |s'.hypotheses| ensures HasEvidence(s', h) { assert HasEvidence(s, h); }
  }

  lemma StepKeeps(s: Store, e: Event)
    requires Valid(s)
    ensures Valid(Step(s, e)) && Evolves(s, Step(s, e))
    ensures !e.Merge? ==> Keeps(s, Step(s, e))
  {
    match e
    case AddManual(owners) => AddKeeps(s, Memory(false, false, Active, None, owners));
    case Supersede(id, aboutUser) => SupersedeKeeps(s, id, aboutUser);
    case Retract(id) => RetractKeeps(s, id);
    case Extract(shown, candidates) => ExtractKeeps(s, Comparisons(s.memories, shown), candidates);
    case Infer(o, items, shown, retractions) =>
      var known := KnownInferences(s.memories, o, |s.memories|);
      KnownAreInferences(s, o, |s.memories|);
      var inferred := InferAll(s, o, known, SourceIds(s.memories, s.endpoints, o), items);
      InferKeeps(s, o, known, SourceIds(s.memories, s.endpoints, o), items);
      RetractInferencesKeeps(inferred, o, shown, retractions);
      EvolvesTransitively(s, inferred, Step(s, e));
    case Hypothesize(o, shown, claims, transitions) =>
      var claimed := ClaimAll(s, o, shown, SourceIds(s.memories, s.endpoints, o), claims);
      ClaimKeeps(s, o, shown, SourceIds(s.memories, s.endpoints, o), claims);
      TransitionKeeps(claimed, o, shown, transitions);
      EvolvesTransitively(s, claimed, Step(s, e));
    case _ => RelinkKeeps(s, Step(s, e));
  }

  function Run(s: Store, events: seq<Event>): Store
    decreases |events|
  {
    if events == [] then s else Run(Step(s, events[0]), events[1..])
  }

  const EMPTY := Store([], {}, [], {}, map[])

  /** Provenance holds in every run, and what left the active state never comes back. */
  lemma {:induction false} RunKeepsProvenance(s: Store, events: seq<Event>)
    requires Valid(s)
    ensures Valid(Run(s, events)) && Evolves(s, Run(s, events))
    ensures (forall e | e in events :: !e.Merge?) ==> SameOwners(s, Run(s, events))
    decreases |events|
  {
    if events != [] {
      StepKeeps(s, events[0]);
      RunKeepsProvenance(Step(s, events[0]), events[1..]);
      EvolvesTransitively(s, Step(s, events[0]), Run(s, events));
    }
  }

  /** Following supersession links leads to ever older Memories, so no chain of them is a cycle. */
  lemma {:induction false} SupersessionIsAcyclic(s: Store, chain: seq<nat>)
    requires Valid(s) && |chain| > 1
    requires forall i | 0 <= i < |chain| - 1 ::
               chain[i] < |s.memories| && s.memories[chain[i]].supersedes == Some(chain[i + 1])
    ensures chain[|chain| - 1] < chain[0]
  {
    if |chain| > 2 {
      SupersessionIsAcyclic(s, chain[1..]);
    }
    assert s.memories[chain[0]].supersedes == Some(chain[1]);
  }

  // ----- Superseded means replaced

  ghost predicate Replaced(s: Store, id: nat) {
    exists j: nat :: j < |s.memories| && s.memories[j].supersedes == Some(id)
  }

  /** A superseded Memory has a replacement, and what has a replacement is no longer active. */
  ghost predicate ReplacementsMatch(s: Store) {
    && (forall id: nat | id < |s.memories| && s.memories[id].status.Superseded? :: Replaced(s, id))
    && (forall j: nat | j < |s.memories| && s.memories[j].supersedes.Some? ::
          s.memories[j].supersedes.value < |s.memories| && !s.memories[s.memories[j].supersedes.value].status.Active?)
  }

  lemma AddMatches(s: Store, m: Memory)
    requires ReplacementsMatch(s) && m.supersedes.None? && !m.status.Superseded?
    ensures ReplacementsMatch(AddMemory(s, m))
  {
    var s' := AddMemory(s, m);
    forall id: nat | id < |s.memories| && s.memories[id].status.Superseded? ensures Replaced(s', id) {
      var j: nat :| j < |s.memories| && s.memories[j].supersedes == Some(id);
      assert s'.memories[j] == s.memories[j];
    }
  }

  lemma ReplaceMatches(s: Store, m: Memory, id: nat)
    requires ReplacementsMatch(s) && id < |s.memories| && m.supersedes == Some(id) && m.status.Active?
    ensures ReplacementsMatch(SetStatus(AddMemory(s, m), id, Superseded))
  {
    var s' := SetStatus(AddMemory(s, m), id, Superseded);
    forall i: nat | i < |s'.memories| && s'.memories[i].status.Superseded? ensures Replaced(s', i) {
      if i == id {
        assert s'.memories[|s.memories|].supersedes == Some(id);
      } else {
        var j: nat :| j < |s.memories| && s.memories[j].supersedes == Some(i);
        assert s'.memories[j].supersedes == Some(i);
      }
    }
  }

  lemma RetractMatches(s: Store, id: nat)
    requires ReplacementsMatch(s) && id < |s.memories|
    ensures ReplacementsMatch(SetStatus(s, id, Retracted))
  {
    var s' := SetStatus(s, id, Retracted);
    forall i: nat | i < |s'.memories| && s'.memories[i].status.Superseded? ensures Replaced(s', i) {
      var j: nat :| j < |s.memories| && s.memories[j].supersedes == Some(i);
      assert s'.memories[j].supersedes == Some(i);
    }
  }

  lemma SameStatesMatch(s: Store, s': Store)
    requires ReplacementsMatch(s) && |s'.memories| == |s.memories|
    requires forall id | 0 <= id < |s.memories| ::
               s'.memories[id].status == s.memories[id].status
               && s'.memories[id].supersedes == s.memories[id].supersedes
    ensures ReplacementsMatch(s')
  {
    forall id: nat | id < |s.memories| && s.memories[id].status.Superseded? ensures Replaced(s', id) {
      var j: nat :| j < |s.memories| && s.memories[j].supersedes == Some(id);
      assert s'.memories[j].supersedes == Some(id);
    }
  }

  lemma {:induction false} ExtractMatches(s: Store, comparisons: set<nat>, candidates: seq<Candidate>)
    requires ReplacementsMatch(s)
    ensures ReplacementsMatch(ExtractAll(s, comparisons, candidates))
  {
    if candidates != [] {
      var before, c := ExtractAll(s, comparisons, candidates[..|candidates| - 1]), candidates[|candidates| - 1];
      ExtractMatches(s, comparisons, candidates[..|candidates| - 1]);
      var superseded :=
        c.supersedes.Some? && c.supersedes.value in comparisons && c.supersedes.value < |before.memories|;
      var m := Memory(c.inferred, false, Active, if superseded then c.supersedes else None, c.owners);
      if superseded { ReplaceMatches(before, m, c.supersedes.value); } else { AddMatches(before, m); }
    }
  }

  lemma {:induction false} InferMatches(s: Store, o: Owner, known: seq<nat>, sourceIds: set<nat>, items: seq<Inference>)
    requires ReplacementsMatch(s)
    ensures ReplacementsMatch(InferAll(s, o, known, sourceIds, items))
  {
    if items != [] {
      var before := InferAll(s, o, known, sourceIds, items[..|items| - 1]);
      InferMatches(s, o, known, sourceIds, items[..|items| - 1]);
      AddMatches(before, Memory(true, true, Active, None, {o}));
      var added := AddMemory(before, Memory(true, true, Active, None, {o}));
      var after := InferAll(s, o, known, sourceIds, items);
      if after.memories == before.memories { SameStatesMatch(before, after); } else { SameStatesMatch(added, after); }
    }
  }

  lemma {:induction false} RetractionsMatch(s: Store, o: Owner, shown: set<nat>, ids: seq<nat>)
    requires ReplacementsMatch(s)
    ensures ReplacementsMatch(RetractInferences(s, o, shown, ids))
  {
    if ids != [] {
      var before, id := RetractInferences(s, o, shown, ids[..|ids| - 1]), ids[|ids| - 1];
      RetractionsMatch(s, o, shown, ids[..|ids| - 1]);
      if id < |before.memories| { RetractMatches(before, id); }
    }
  }

  /** In every run the superseded Memories are those that were replaced, unless they were retracted later. */
  lemma {:induction false} RunKeepsReplacements(s: Store, events: seq<Event>)
    requires ReplacementsMatch(s)
    ensures ReplacementsMatch(Run(s, events))
    decreases |events|
  {
    if events != [] {
      match events[0] {
        case AddManual(owners) => AddMatches(s, Memory(false, false, Active, None, owners));
        case Supersede(id, aboutUser) =>
          if id < |s.memories| {
            ReplaceMatches(s, Memory(false, false, Active, Some(id), Corrected(s.memories[id].owners, aboutUser)), id);
          }
        case Retract(id) => if id < |s.memories| { RetractMatches(s, id); }
        case Extract(shown, candidates) => ExtractMatches(s, Comparisons(s.memories, shown), candidates);
        case Infer(o, items, shown, retractions) =>
          InferMatches(s, o, KnownInferences(s.memories, o, |s.memories|), SourceIds(s.memories, s.endpoints, o),
            items);
          var known, sourceIds := KnownInferences(s.memories, o, |s.memories|), SourceIds(s.memories, s.endpoints, o);
          RetractionsMatch(InferAll(s, o, known, sourceIds, items), o, shown, retractions);
        case Hypothesize(o, shown, claims, transitions) =>
          HypothesesTouch(s, o, shown, claims, transitions);
          SameStatesMatch(s, Step(s, events[0]));
        case _ => SameStatesMatch(s, Step(s, events[0]));
      }
      RunKeepsReplacements(Step(s, events[0]), events[1..]);
    }
  }

  // ----- What an operation may touch

  /** A row changes only by leaving the active state for the given one, and only where it may. */
  ghost predicate ChangesWithin(memories: seq<Memory>, memories': seq<Memory>, ids: set<nat>, status: Status) {
    && |memories| <= |memories'|
    && forall id: nat | id < |memories| ::
         memories'[id] == memories[id] || (id in ids && memories'[id] == memories[id].(status := status))
  }

  /** Extraction supersedes none but the rows it was shown. */
  lemma {:induction false} ExtractionTouches(s: Store, comparisons: set<nat>, candidates: seq<Candidate>)
    ensures var s' := ExtractAll(s, comparisons, candidates);
            && ChangesWithin(s.memories, s'.memories, comparisons, Superseded)
            && s'.edges == s.edges && s'.hypotheses == s.hypotheses && s'.evidence == s.evidence
  {
    if candidates != [] { ExtractionTouches(s, comparisons, candidates[..|candidates| - 1]); }
  }

  /** The active inferences of an owner that were shown. */
  function OwnShown(memories: seq<Memory>, o: Owner, shown: set<nat>): set<nat> {
    set id | id in shown && id < |memories| &&
             memories[id].inferred && memories[id].status.Active? && o in memories[id].owners
  }

  lemma {:induction false} InferringAdds(s: Store, o: Owner, known: seq<nat>, sourceIds: set<nat>,
        items: seq<Inference>)
    ensures var s' := InferAll(s, o, known, sourceIds, items);
            && s.memories <= s'.memories && s'.hypotheses == s.hypotheses && s'.evidence == s.evidence
            && forall id: nat | |s.memories| <= id < |s'.memories| ::
                 s'.memories[id] == Memory(true, true, Active, None, {o})
  {
    if items != [] { InferringAdds(s, o, known, sourceIds, items[..|items| - 1]); }
  }

  lemma {:induction false} RetractingTouches(s: Store, o: Owner, shown: set<nat>, ids: seq<nat>)
    ensures var s' := RetractInferences(s, o, shown, ids);
            && |s'.memories| == |s.memories|
               && ChangesWithin(s.memories, s'.memories, OwnShown(s.memories, o, shown), Retracted)
            && s'.edges == s.edges && s'.hypotheses == s.hypotheses && s'.evidence == s.evidence
  {
    if ids != [] {
      RetractingTouches(s, o, shown, ids[..|ids| - 1]);
    }
  }

  /**
    A reasoner adds inferences of its own owner, and retracts none but that owner's shown ones: evidence is
    out of its reach.
   */
  lemma InferencesTouch(s: Store, o: Owner, items: seq<Inference>, shown: set<nat>, retractions: seq<nat>)
    ensures var s' := ActOnInferences(s, o, items, shown, retractions);
            && ChangesWithin(s.memories, s'.memories, OwnShown(s.memories, o, shown), Retracted)
            && (forall id: nat | |s.memories| <= id < |s'.memories| ::
                  s'.memories[id].inferred && s'.memories[id].byReasoner && s'.memories[id].owners == {o})
            && s'.hypotheses == s.hypotheses && s'.evidence == s.evidence
  {
    var known, sourceIds := KnownInferences(s.memories, o, |s.memories|), SourceIds(s.memories, s.endpoints, o);
    var inferred := InferAll(s, o, known, sourceIds, items);
    InferringAdds(s, o, known, sourceIds, items);
    RetractingTouches(inferred, o, shown, retractions);
  }

  ghost predicate HypothesesWithin(hypotheses: seq<Hypothesis>, hypotheses': seq<Hypothesis>, o: Owner,
        shown: set<nat>) {
    && |hypotheses| <= |hypotheses'|
    && (forall h: nat | h < |hypotheses| && hypotheses'[h] != hypotheses[h] ::
          hypotheses[h].owner == o && hypotheses[h].status.Open?)
    && (forall h: nat | h < |hypotheses| && hypotheses'[h].status != hypotheses[h].status :: h in shown)
    && (forall h: nat | |hypotheses| <= h < |hypotheses'| :: hypotheses'[h].owner == o)
  }

  lemma {:induction false} ClaimsTouch(s: Store, o: Owner, shown: set<nat>, sourceIds: set<nat>, claims: seq<Claim>)
    ensures var s' := ClaimAll(s, o, shown, sourceIds, claims);
            s'.memories == s.memories && s'.edges == s.edges && HypothesesWithin(s.hypotheses, s'.hypotheses, o, shown)
  {
    if claims != [] {
      ClaimsTouch(s, o, shown, sourceIds, claims[..|claims| - 1]);
      ClaimTouches(ClaimAll(s, o, shown, sourceIds, claims[..|claims| - 1]), o, shown, sourceIds, claims[|claims| - 1]);
    }
  }

  lemma ClaimTouches(s: Store, o: Owner, shown: set<nat>, sourceIds: set<nat>, claim: Claim)
    ensures var s' := ClaimOne(s, o, shown, sourceIds, claim);
            && s'.memories == s.memories && s'.edges == s.edges && |s.hypotheses| <= |s'.hypotheses|
            && (forall h: nat | h < |s.hypotheses| && s'.hypotheses[h] != s.hypotheses[h] :: IsOpen(s.hypotheses, o, h))
            && (forall h: nat | h < |s.hypotheses| ::
                  s'.hypotheses[h].status == s.hypotheses[h].status && s'.hypotheses[h].owner == s.hypotheses[h].owner)
            && (forall h: nat | |s.hypotheses| <= h < |s'.hypotheses| :: s'.hypotheses[h].owner == o)
  {
  }

  lemma {:induction false} TransitionsTouch(s: Store, o: Owner, shown: set<nat>, ts: seq<Transition>)
    ensures var s' := TransitionAll(s, o, shown, ts);
            && s'.memories == s.memories && s'.edges == s.edges && s'.evidence == s.evidence
            && |s'.hypotheses| == |s.hypotheses| && HypothesesWithin(s.hypotheses, s'.hypotheses, o, shown)
            && forall h: nat | h < |s.hypotheses| :: s'.hypotheses[h].owner == s.hypotheses[h].owner
  {
    if ts != [] { TransitionsTouch(s, o, shown, ts[..|ts| - 1]); }
  }

  /** Hypothesis actions touch open hypotheses of their owner, end none but shown ones, and no Memory. */
  lemma HypothesesTouch(s: Store, o: Owner, shown: set<nat>, claims: seq<Claim>, transitions: seq<Transition>)
    ensures var s' := ActOnHypotheses(s, o, shown, claims, transitions);
            s'.memories == s.memories && s'.edges == s.edges && HypothesesWithin(s.hypotheses, s'.hypotheses, o, shown)
  {
    var claimed := ClaimAll(s, o, shown, SourceIds(s.memories, s.endpoints, o), claims);
    ClaimsTouch(s, o, shown, SourceIds(s.memories, s.endpoints, o), claims);
    TransitionsTouch(claimed, o, shown, transitions);
  }
}

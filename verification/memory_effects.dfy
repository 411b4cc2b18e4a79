/**
  What the operations on Memories and hypotheses do, row by row and field by field: said without the functions
  that compute it, and proved of them. A list of requests is a sequence of states, one request apart.
 */
module MemoryEffects {
  import opened MemoryLifecycle
  import opened Wrappers

  ghost predicate ActiveEvidence(memories: seq<Memory>, id: nat) {
    id < |memories| && memories[id].status.Active? && !memories[id].inferred
  }

  // ----- Corrections

  /** The original is superseded by one human Memory with its links; a correction may decide about the user anew. */
  ghost predicate Corrects(memories: seq<Memory>, memories': seq<Memory>, id: nat, aboutUser: Option<bool>) {
    && id < |memories| && |memories'| == |memories| + 1
    && memories'[id] == memories[id].(status := Superseded)
    && (forall i: nat | i < |memories| && i != id :: memories'[i] == memories[i])
    && (var added := memories'[|memories|];
        && !added.inferred && !added.byReasoner && added.status.Active? && added.supersedes == Some(id)
        && (forall o :: o in added.owners <==>
              if o.UserOwner? && aboutUser.Some? then aboutUser.value else o in memories[id].owners))
  }

  lemma SupersedingCorrects(s: Store, id: nat, aboutUser: Option<bool>)
    requires id < |s.memories| && s.memories[id].status.Active?
    ensures Corrects(s.memories, SupersedeMemory(s, id, aboutUser).memories, id, aboutUser)
  {
  }

  // ----- Extraction

  /** The places of the candidates that repeat nothing, in order. */
  ghost predicate FreshPlaces(places: seq<nat>, candidates: seq<Candidate>) {
    && (forall i: nat, j: nat | i < j < |places| :: places[i] < places[j])
    && (forall k: nat :: k in places <==> k < |candidates| && !candidates[k].repeats)
  }

  /** The candidate may supersede this row: it was shown, and still was active evidence as the batch began. */
  ghost predicate MaySupersede(memories: seq<Memory>, shown: set<nat>, c: Candidate, id: nat) {
    c.supersedes == Some(id) && id in shown && ActiveEvidence(memories, id)
  }

  ghost predicate RecordedFor(memories: seq<Memory>, shown: set<nat>, c: Candidate, m: Memory) {
    && m.status.Active? && !m.byReasoner && m.inferred == c.inferred && m.owners == c.owners
    && (forall id: nat :: m.supersedes == Some(id) <==> MaySupersede(memories, shown, c, id))
  }

  ghost predicate IsSuperseded(memories: seq<Memory>, shown: set<nat>, candidates: seq<Candidate>, id: nat) {
    exists k: nat :: k < |candidates| && !candidates[k].repeats && MaySupersede(memories, shown, candidates[k], id)
  }

  /** The rows that candidates supersede end so, and no other row there was changes. */
  ghost predicate EndsSuperseded(memories: seq<Memory>, memories': seq<Memory>, shown: set<nat>,
        candidates: seq<Candidate>)
  {
    && |memories| <= |memories'|
    && (forall id: nat | id < |memories| ::
          memories'[id] ==
          if IsSuperseded(memories, shown, candidates, id) then memories[id].(status := Superseded) else memories[id])
  }

  /** The rows added are those of the candidates at these places, in order. */
  ghost predicate RowsRecorded(memories: seq<Memory>, memories': seq<Memory>, shown: set<nat>,
        candidates: seq<Candidate>, places: seq<nat>)
  {
    && |memories'| == |memories| + |places|
    && forall i: nat | i < |places| ::
         places[i] < |candidates| && RecordedFor(memories, shown, candidates[places[i]], memories'[|memories| + i])
  }

  /** One row for each fresh candidate, in order; the rows they supersede end so, and no other row changes. */
  ghost predicate Extracted(memories: seq<Memory>, memories': seq<Memory>, shown: set<nat>,
        candidates: seq<Candidate>, places: seq<nat>)
  {
    && FreshPlaces(places, candidates)
    && RowsRecorded(memories, memories', shown, candidates, places)
    && EndsSuperseded(memories, memories', shown, candidates)
  }

  lemma MorePlaces(places: seq<nat>, candidates: seq<Candidate>, c: Candidate)
    requires FreshPlaces(places, candidates)
    ensures FreshPlaces(if c.repeats then places else places + [|candidates|], candidates + [c])
  {
    var more, places' := candidates + [c], places + [|candidates|];
    forall i: nat | i < |places| ensures places[i] < |candidates| { assert places[i] in places; }
    forall k: nat ensures k in places' <==> k in places || k == |candidates| {
      assert places'[|places|] == |candidates|;
    }
  }

  lemma MoreSuperseded(memories: seq<Memory>, shown: set<nat>, candidates: seq<Candidate>, c: Candidate, id: nat)
    ensures IsSuperseded(memories, shown, candidates + [c], id) <==>
            IsSuperseded(memories, shown, candidates, id) || (!c.repeats && MaySupersede(memories, shown, c, id))
  {
    var more := candidates + [c];
    if k: nat :| k < |candidates| && !candidates[k].repeats && MaySupersede(memories, shown, candidates[k], id) {
      assert more[k] == candidates[k];
    }
    if k: nat :| k < |more| && !more[k].repeats && MaySupersede(memories, shown, more[k], id) {
      if k < |candidates| { assert candidates[k] == more[k]; }
    }
    assert more[|candidates|] == c;
  }

  lemma SupersededOneMore(memories: seq<Memory>, before: Store, shown: set<nat>, candidates: seq<Candidate>,
        c: Candidate)
    requires EndsSuperseded(memories, before.memories, shown, candidates)
    ensures EndsSuperseded(memories, ExtractOne(before, Comparisons(memories, shown), c).memories, shown,
              candidates + [c])
  {
    var after := ExtractOne(before, Comparisons(memories, shown), c).memories;
    forall id: nat | id < |memories|
      ensures after[id] == if IsSuperseded(memories, shown, candidates + [c], id) then
                             memories[id].(status := Superseded)
                           else memories[id] {
      MoreSuperseded(memories, shown, candidates, c, id);
    }
  }

  lemma NewRowIsRecorded(memories: seq<Memory>, before: Store, shown: set<nat>, c: Candidate)
    requires |memories| <= |before.memories| && !c.repeats
    ensures var after := ExtractOne(before, Comparisons(memories, shown), c).memories;
            |after| == |before.memories| + 1 && RecordedFor(memories, shown, c, after[|before.memories|])
  {
  }

  lemma OneMoreRow(memories: seq<Memory>, before: Store, shown: set<nat>, candidates: seq<Candidate>, c: Candidate,
        places: seq<nat>)
    requires RowsRecorded(memories, before.memories, shown, candidates, places)
    ensures RowsRecorded(memories, ExtractOne(before, Comparisons(memories, shown), c).memories, shown,
              candidates + [c],
              if c.repeats then places else places + [|candidates|])
  {
    var after := ExtractOne(before, Comparisons(memories, shown), c).memories;
    if !c.repeats { NewRowIsRecorded(memories, before, shown, c); }
    forall i: nat | i < |places| ensures RecordedFor(memories, shown, candidates[places[i]], after[|memories| + i]) {
      assert after[|memories| + i] == before.memories[|memories| + i];
    }
  }

  lemma ExtractedOneMore(memories: seq<Memory>, before: Store, shown: set<nat>, candidates: seq<Candidate>,
        c: Candidate, places: seq<nat>)
    requires Extracted(memories, before.memories, shown, candidates, places)
    ensures Extracted(memories, ExtractOne(before, Comparisons(memories, shown), c).memories, shown, candidates + [c],
              if c.repeats then places else places + [|candidates|])
  {
    MorePlaces(places, candidates, c);
    SupersededOneMore(memories, before, shown, candidates, c);
    OneMoreRow(memories, before, shown, candidates, c, places);
  }

  lemma NothingRecorded(memories: seq<Memory>, shown: set<nat>)
    ensures Extracted(memories, memories, shown, [], [])
  {
  }

  lemma ExtractAllSnoc(s: Store, comparisons: set<nat>, candidates: seq<Candidate>, c: Candidate)
    ensures ExtractAll(s, comparisons, candidates + [c]) ==
            ExtractOne(ExtractAll(s, comparisons, candidates), comparisons, c)
  {
    assert (candidates + [c])[..|candidates|] == candidates;
  }

  /** Extraction records what is new, in order, and supersedes just what it may. */
  lemma {:induction false} ExtractionRecords(s: Store, shown: set<nat>, candidates: seq<Candidate>)
    returns (places: seq<nat>)
    ensures Extracted(s.memories, ExtractAll(s, Comparisons(s.memories, shown), candidates).memories, shown,
              candidates, places)
  {
    if candidates == [] {
      places := [];
      NothingRecorded(s.memories, shown);
    } else {
      var init, c := candidates[..|candidates| - 1], candidates[|candidates| - 1];
      var rest := ExtractionRecords(s, shown, init);
      places := RecordedAndOneMore(s, shown, init, c, rest);
      assert init + [c] == candidates;
    }
  }

  lemma RecordedAndOneMore(s: Store, shown: set<nat>, candidates: seq<Candidate>, c: Candidate, places: seq<nat>)
    returns (more: seq<nat>)
    requires Extracted(s.memories, ExtractAll(s, Comparisons(s.memories, shown), candidates).memories, shown,
               candidates, places)
    ensures Extracted(s.memories, ExtractAll(s, Comparisons(s.memories, shown), candidates + [c]).memories, shown,
              candidates + [c], more)
  {
    more := if c.repeats then places else places + [|candidates|];
    ExtractAllSnoc(s, Comparisons(s.memories, shown), candidates, c);
    var before := ExtractAll(s, Comparisons(s.memories, shown), candidates);
    ExtractedOneMore(s.memories, before, shown, candidates, c, places);
  }

  // ----- Inferences

  /** Which evidence a reasoner may build on. */
  ghost predicate IsSource(s: Store, o: Owner, id: nat) {
    && ActiveEvidence(s.memories, id)
    && match o
       case RelationshipOwner(r) =>
         && r in s.endpoints
         && (var (a, b) := s.endpoints[r];
             || RelationshipOwner(r) in s.memories[id].owners
             || (PersonOwner(a) in s.memories[id].owners && PersonOwner(b) in s.memories[id].owners))
       case _ => o in s.memories[id].owners
  }

  lemma SourcesAre(s: Store, o: Owner)
    ensures forall id: nat :: id in SourceIds(s.memories, s.endpoints, o) <==> IsSource(s, o, id)
  {
  }

  /** The first of the owner's active inferences, as the pass began, whose wording is nearly repeated. */
  ghost predicate FirstRepeated(before: seq<Memory>, o: Owner, similar: set<nat>, id: nat) {
    && IsKnown(before, o, id) && id in similar
    && forall i: nat | i < id && IsKnown(before, o, i) :: i !in similar
  }

  ghost predicate IsKnown(before: seq<Memory>, o: Owner, id: nat) {
    && id < |before| && before[id].inferred && before[id].byReasoner && before[id].status.Active?
    && o in before[id].owners
  }

  /** The inference cites this source, and may. */
  ghost predicate Cites(s: Store, sources: set<nat>, item: Inference, id: nat) {
    id in item.sources && id in sources && ActiveEvidence(s.memories, id)
  }

  ghost predicate AddsEdges(s: Store, s': Store, sources: set<nat>, item: Inference, derived: nat) {
    forall e :: e in s'.edges <==> e in s.edges || (e.derived == derived && Cites(s, sources, item, e.source))
  }

  ghost predicate NewInference(m: Memory, o: Owner) {
    && m.inferred && m.byReasoner && m.status.Active? && m.supersedes.None?
    && forall owner :: owner in m.owners <==> owner == o
  }

  /** Without a source it is dropped; a repeated one gains its sources; a new one is added with them. */
  ghost predicate Reconciled(before: seq<Memory>, s: Store, s': Store, o: Owner, sources: set<nat>, item: Inference) {
    && s'.hypotheses == s.hypotheses && s'.evidence == s.evidence && s'.endpoints == s.endpoints
    && if forall id: nat :: !Cites(s, sources, item, id) then s' == s
       else if exists id: nat :: FirstRepeated(before, o, item.similar, id) then
         && s'.memories == s.memories
         && forall id: nat | FirstRepeated(before, o, item.similar, id) :: AddsEdges(s, s', sources, item, id)
       else
         && |s'.memories| == |s.memories| + 1 && s'.memories[..|s.memories|] == s.memories
         && NewInference(s'.memories[|s.memories|], o) && AddsEdges(s, s', sources, item, |s.memories|)
  }

  ghost predicate ReconciledInTurn(states: seq<Store>, o: Owner, sources: set<nat>, items: seq<Inference>) {
    && |states| == |items| + 1
    && forall k: nat | k < |items| :: Reconciled(states[0].memories, states[k], states[k + 1], o, sources, items[k])
  }

  ghost predicate Ascending(ids: seq<nat>) {
    forall i, j | 0 <= i < j < |ids| :: ids[i] < ids[j]
  }

  lemma AscendingSnoc(ids: seq<nat>, last: nat)
    requires Ascending(ids) && forall id | id in ids :: id < last
    ensures Ascending(ids + [last])
  {
    forall i | 0 <= i < |ids| ensures ids[i] < last { assert ids[i] in ids; }
  }

  lemma {:induction false} KnownAre(before: seq<Memory>, o: Owner, n: nat)
    requires n <= |before|
    ensures forall id: nat :: id in KnownInferences(before, o, n) <==> id < n && IsKnown(before, o, id)
    ensures Ascending(KnownInferences(before, o, n))
  {
    if n > 0 {
      KnownAre(before, o, n - 1);
      AscendingSnoc(KnownInferences(before, o, n - 1), n - 1);
    }
  }

  lemma {:induction false} FirstSimilarIsFirst(known: seq<nat>, similar: set<nat>)
    ensures var found := FirstSimilar(known, similar);
            if found.None? then forall i | 0 <= i < |known| :: known[i] !in similar
            else exists i :: 0 <= i < |known| && known[i] == found.value && found.value in similar
                             && forall j | 0 <= j < i :: known[j] !in similar
  {
    if known != [] {
      FirstSimilarIsFirst(known[1..], similar);
      var found := FirstSimilar(known, similar);
      if known[0] !in similar {
        assert forall i | 0 < i < |known| :: known[i] == known[1..][i - 1];
        if found.Some? {
          var i :| 0 <= i < |known| - 1 && known[1..][i] == found.value && found.value in similar
                   && forall j | 0 <= j < i :: known[1..][j] !in similar;
          assert known[i + 1] == found.value;
          assert forall j | 0 < j < i + 1 :: known[j] == known[1..][j - 1];
        }
      }
    }
  }

  lemma FoundIsRepeated(before: seq<Memory>, o: Owner, similar: set<nat>, id: nat)
    requires FirstSimilar(KnownInferences(before, o, |before|), similar) == Some(id)
    ensures FirstRepeated(before, o, similar, id)
  {
    var known := KnownInferences(before, o, |before|);
    KnownAre(before, o, |before|);
    FirstSimilarIsFirst(known, similar);
    var i :| 0 <= i < |known| && known[i] == id && forall j | 0 <= j < i :: known[j] !in similar;
    assert known[i] in known;
    forall l: nat | l < id && IsKnown(before, o, l) ensures l !in similar {
      assert l in known;
      var k :| 0 <= k < |known| && known[k] == l;
    }
  }

  lemma RepeatedIsFirst(before: seq<Memory>, o: Owner, similar: set<nat>)
    ensures var found := FirstSimilar(KnownInferences(before, o, |before|), similar);
            && (forall id: nat :: FirstRepeated(before, o, similar, id) <==> found == Some(id))
  {
    var known := KnownInferences(before, o, |before|);
    var found := FirstSimilar(known, similar);
    KnownAre(before, o, |before|);
    FirstSimilarIsFirst(known, similar);
    if found.Some? { FoundIsRepeated(before, o, similar, found.value); }
    forall id: nat | FirstRepeated(before, o, similar, id) ensures found == Some(id) {
      assert id in known;
      var k :| 0 <= k < |known| && known[k] == id;
      assert known[k] in similar;
    }
  }

  lemma InferenceReconciles(before: seq<Memory>, s: Store, o: Owner, sources: set<nat>, item: Inference)
    ensures Reconciled(before, s, InferOne(s, o, KnownInferences(before, o, |before|), sources, item), o, sources, item)
  {
    var known := KnownInferences(before, o, |before|);
    var s', valid := InferOne(s, o, known, sources, item), ValidSources(s.memories, sources, item.sources);
    RepeatedIsFirst(before, o, item.similar);
    assert forall id: nat :: id in valid <==> Cites(s, sources, item, id);
    if valid != {} {
      var source :| source in valid;
      assert Cites(s, sources, item, source);
      var derived := match FirstSimilar(known, item.similar) case Some(id) => id case None => |s.memories|;
      EdgesAre(s, s', sources, item, valid, derived);
    }
  }

  lemma EdgesAre(s: Store, s': Store, sources: set<nat>, item: Inference, valid: set<nat>, derived: nat)
    requires forall id: nat :: id in valid <==> Cites(s, sources, item, id)
    requires s'.edges == s.edges + EdgesFrom(derived, valid)
    ensures AddsEdges(s, s', sources, item, derived)
  {
    forall e ensures e in EdgesFrom(derived, valid) <==> e.derived == derived && Cites(s, sources, item, e.source) {
      if e.derived == derived && e.source in valid { assert e == Edge(derived, e.source); }
    }
  }

  lemma ReconciledOneMore(states: seq<Store>, next: Store, o: Owner, sources: set<nat>, items: seq<Inference>,
        item: Inference)
    requires ReconciledInTurn(states, o, sources, items)
    requires Reconciled(states[0].memories, states[|items|], next, o, sources, item)
    ensures ReconciledInTurn(states + [next], o, sources, items + [item])
  {
    var states', items' := states + [next], items + [item];
    forall k: nat | k < |items'|
      ensures Reconciled(states'[0].memories, states'[k], states'[k + 1], o, sources, items'[k]) {
      if k < |items| { assert Reconciled(states[0].memories, states[k], states[k + 1], o, sources, items[k]); }
    }
  }

  lemma {:induction false} InferencesReconcile(s: Store, o: Owner, sources: set<nat>, items: seq<Inference>)
    returns (states: seq<Store>)
    ensures ReconciledInTurn(states, o, sources, items) && states[0] == s
    ensures states[|items|] == InferAll(s, o, KnownInferences(s.memories, o, |s.memories|), sources, items)
  {
    if items == [] {
      states := [s];
    } else {
      var init, last := items[..|items| - 1], items[|items| - 1];
      var before := InferencesReconcile(s, o, sources, init);
      var next := InferAll(s, o, KnownInferences(s.memories, o, |s.memories|), sources, items);
      InferenceReconciles(s.memories, before[|init|], o, sources, last);
      ReconciledOneMore(before, next, o, sources, init, last);
      assert init + [last] == items;
      states := before + [next];
    }
  }

  /** The named inferences that are active, the owner's and were shown are retracted, and no other row changes. */
  ghost predicate RetractedThose(s: Store, s': Store, o: Owner, shown: set<nat>, ids: seq<nat>) {
    && s'.edges == s.edges && s'.hypotheses == s.hypotheses && s'.evidence == s.evidence
    && s'.endpoints == s.endpoints && |s'.memories| == |s.memories|
    && forall id: nat | id < |s.memories| ::
         s'.memories[id] ==
         if id in ids && id in shown && s.memories[id].inferred && s.memories[id].status.Active?
            && o in s.memories[id].owners then s.memories[id].(status := Retracted)
         else s.memories[id]
  }

  lemma {:induction false} RetractionsRetract(s: Store, o: Owner, shown: set<nat>, ids: seq<nat>)
    ensures RetractedThose(s, RetractInferences(s, o, shown, ids), o, shown, ids)
  {
    if ids != [] {
      assert ids == ids[..|ids| - 1] + [ids[|ids| - 1]];
      RetractionsRetract(s, o, shown, ids[..|ids| - 1]);
    }
  }

  // ----- Hypotheses

  ghost predicate OpenOf(hypotheses: seq<Hypothesis>, o: Owner, h: nat) {
    h < |hypotheses| && hypotheses[h].owner == o && hypotheses[h].status.Open?
  }

  /** The row that a claim says anew: the one it names, or the first open one in the same words. */
  ghost predicate SaysAnew(s: Store, o: Owner, claim: Claim, h: nat) {
    && OpenOf(s.hypotheses, o, h)
    && match claim.hypothesis
       case Some(id) => h == id
       case None =>
         && s.hypotheses[h].text == claim.text
         && forall i: nat | i < h && OpenOf(s.hypotheses, o, i) :: s.hypotheses[i].text != claim.text
  }

  ghost predicate Supports(s: Store, sources: set<nat>, claim: Claim, id: nat, role: Role) {
    (id, role) in claim.cited && id in sources && ActiveEvidence(s.memories, id)
  }

  ghost predicate AddsEvidence(s: Store, s': Store, sources: set<nat>, claim: Claim, h: nat) {
    forall e :: e in s'.evidence <==>
      e in s.evidence || (e.hypothesis == h && Supports(s, sources, claim, e.memory, e.role))
  }

  /** A claim about an unshown row, without support, or about a row that is not open for it, changes nothing. */
  ghost predicate Ignored(s: Store, o: Owner, shown: set<nat>, sources: set<nat>, claim: Claim) {
    || (claim.hypothesis.Some? && claim.hypothesis.value !in shown)
    || (forall id: nat, role :: !Supports(s, sources, claim, id, role))
    || (claim.hypothesis.Some? && claim.hypothesis.value < |s.hypotheses|
        && !OpenOf(s.hypotheses, o, claim.hypothesis.value))
  }

  ghost predicate Claimed(s: Store, s': Store, o: Owner, shown: set<nat>, sources: set<nat>, claim: Claim) {
    && s'.memories == s.memories && s'.edges == s.edges && s'.endpoints == s.endpoints
    && if Ignored(s, o, shown, sources, claim) then s' == s
       else if exists h: nat :: SaysAnew(s, o, claim, h) then
         && |s'.hypotheses| == |s.hypotheses|
         && forall h: nat | SaysAnew(s, o, claim, h) ::
              && s'.hypotheses[h] == s.hypotheses[h].(text := claim.text) && AddsEvidence(s, s', sources, claim, h)
              && forall i: nat | i < |s.hypotheses| && i != h :: s'.hypotheses[i] == s.hypotheses[i]
       else
         && |s'.hypotheses| == |s.hypotheses| + 1 && s'.hypotheses[..|s.hypotheses|] == s.hypotheses
         && (var added := s'.hypotheses[|s.hypotheses|];
             added.owner == o && added.text == claim.text && added.status.Open? && added.promoted.None?)
         && AddsEvidence(s, s', sources, claim, |s.hypotheses|)
  }

  ghost predicate ClaimedInTurn(states: seq<Store>, o: Owner, shown: set<nat>, sources: set<nat>, claims: seq<Claim>) {
    && |states| == |claims| + 1
    && forall k: nat | k < |claims| :: Claimed(states[k], states[k + 1], o, shown, sources, claims[k])
  }

  lemma TargetSaysAnew(s: Store, o: Owner, claim: Claim)
    ensures forall h: nat :: SaysAnew(s, o, claim, h) <==> ClaimTarget(s.hypotheses, o, claim) == Some(h)
  {
    if claim.hypothesis.None? {
      var found := FirstOpen(s.hypotheses, o, claim.text, 0);
      assert forall h: nat | h < (if found.Some? then found.value else |s.hypotheses|) ::
               !(IsOpen(s.hypotheses, o, h) && s.hypotheses[h].text == claim.text);
      forall h: nat ensures SaysAnew(s, o, claim, h) <==> found == Some(h) {
        if SaysAnew(s, o, claim, h) { assert IsOpen(s.hypotheses, o, h); }
        if found == Some(h) {
          forall i: nat | i < h && OpenOf(s.hypotheses, o, i) ensures s.hypotheses[i].text != claim.text {
            assert IsOpen(s.hypotheses, o, i);
          }
        }
      }
    }
  }

  lemma EvidenceIs(s: Store, s': Store, sources: set<nat>, claim: Claim, h: nat)
    requires s'.evidence == s.evidence + EvidenceFor(h, Supporting(s.memories, sources, claim.cited))
    ensures AddsEvidence(s, s', sources, claim, h)
  {
    var supporting := Supporting(s.memories, sources, claim.cited);
    forall e ensures e in EvidenceFor(h, supporting) <==>
                     e.hypothesis == h && Supports(s, sources, claim, e.memory, e.role) {
      if Supports(s, sources, claim, e.memory, e.role) { assert (e.memory, e.role) in supporting; }
    }
  }

  lemma ClaimIsClaimed(s: Store, o: Owner, shown: set<nat>, sources: set<nat>, claim: Claim)
    ensures Claimed(s, ClaimOne(s, o, shown, sources, claim), o, shown, sources, claim)
  {
    var s' := ClaimOne(s, o, shown, sources, claim);
    var supporting, target := Supporting(s.memories, sources, claim.cited), ClaimTarget(s.hypotheses, o, claim);
    TargetSaysAnew(s, o, claim);
    assert forall id: nat, role :: Supports(s, sources, claim, id, role) <==> (id, role) in supporting;
    if supporting != {} {
      var c :| c in supporting;
      assert Supports(s, sources, claim, c.0, c.1);
    }
    if !Ignored(s, o, shown, sources, claim) {
      if target.Some? {
        EvidenceIs(s, s', sources, claim, target.value);
        assert SaysAnew(s, o, claim, target.value);
      } else {
        EvidenceIs(s, s', sources, claim, |s.hypotheses|);
      }
    }
  }

  lemma {:induction false} ClaimsAreClaimed(s: Store, o: Owner, shown: set<nat>, sources: set<nat>, claims: seq<Claim>)
    returns (states: seq<Store>)
    ensures ClaimedInTurn(states, o, shown, sources, claims) && states[0] == s
    ensures states[|claims|] == ClaimAll(s, o, shown, sources, claims)
  {
    if claims == [] {
      states := [s];
    } else {
      var init, last := claims[..|claims| - 1], claims[|claims| - 1];
      var before := ClaimsAreClaimed(s, o, shown, sources, init);
      ClaimIsClaimed(before[|init|], o, shown, sources, last);
      states := before + [ClaimAll(s, o, shown, sources, claims)];
      forall k: nat | k < |claims| ensures Claimed(states[k], states[k + 1], o, shown, sources, claims[k]) {
        if k < |init| { assert Claimed(before[k], before[k + 1], o, shown, sources, init[k]); }
      }
    }
  }

  /** A transition needs a shown open row of the owner, and a promotion an active Memory of the owner. */
  ghost predicate MayEnd(s: Store, o: Owner, shown: set<nat>, t: Transition) {
    && t.hypothesis in shown && OpenOf(s.hypotheses, o, t.hypothesis)
    && (if t.status.Promoted? then
          && t.promoted.Some? && t.promoted.value < |s.memories|
          && s.memories[t.promoted.value].status.Active? && o in s.memories[t.promoted.value].owners
        else t.promoted.None?)
  }

  ghost predicate Ended(s: Store, s': Store, o: Owner, shown: set<nat>, t: Transition) {
    if !MayEnd(s, o, shown, t) then s' == s
    else
      && s'.memories == s.memories && s'.edges == s.edges && s'.evidence == s.evidence
      && s'.endpoints == s.endpoints && |s'.hypotheses| == |s.hypotheses|
      && (var h, h' := s.hypotheses[t.hypothesis], s'.hypotheses[t.hypothesis];
          h'.owner == h.owner && h'.text == h.text && h'.status == t.status && h'.promoted == t.promoted)
      && forall i: nat | i < |s.hypotheses| && i != t.hypothesis :: s'.hypotheses[i] == s.hypotheses[i]
  }

  ghost predicate EndedInTurn(states: seq<Store>, o: Owner, shown: set<nat>, ts: seq<Transition>) {
    && |states| == |ts| + 1
    && forall k: nat | k < |ts| :: Ended(states[k], states[k + 1], o, shown, ts[k])
  }

  lemma {:induction false} TransitionsEnd(s: Store, o: Owner, shown: set<nat>, ts: seq<Transition>)
    returns (states: seq<Store>)
    ensures EndedInTurn(states, o, shown, ts) && states[0] == s && states[|ts|] == TransitionAll(s, o, shown, ts)
  {
    if ts == [] {
      states := [s];
    } else {
      var init, last := ts[..|ts| - 1], ts[|ts| - 1];
      var before := TransitionsEnd(s, o, shown, init);
      states := before + [TransitionAll(s, o, shown, ts)];
      forall k: nat | k < |ts| ensures Ended(states[k], states[k + 1], o, shown, ts[k]) {
        if k < |init| { assert Ended(before[k], before[k + 1], o, shown, init[k]); }
      }
    }
  }
}

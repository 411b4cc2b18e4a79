/** The store object of Memories and hypotheses: its methods keep provenance and have the effects they should. */
module MemoryStores {
  import opened MemoryEffects
  import opened MemoryLifecycle
  import opened Wrappers

  class MemoryStore {
    var memories: seq<Memory>
    var edges: set<Edge>
    var hypotheses: seq<Hypothesis>
    var evidence: set<Evidence>
    var endpoints: map<nat, (nat, nat)>

    ghost function State(): Store
      reads this
    {
      Store(memories, edges, hypotheses, evidence, endpoints)
    }

    constructor ()
      ensures State() == EMPTY && Valid(State())
    {
      memories, edges, hypotheses, evidence, endpoints := [], {}, [], {}, map[];
    }

    method AddManualMemory(owners: set<Owner>) returns (id: nat)
      requires Valid(State())
      modifies this`memories
      ensures State() == Step(old(State()), AddManual(owners)) && Keeps(old(State()), State())
      ensures id == |old(memories)| && |memories| == id + 1 && memories[..id] == old(memories)
      ensures !memories[id].inferred && !memories[id].byReasoner && memories[id].status.Active?
      ensures memories[id].supersedes.None? && memories[id].owners == owners
    {
      StepKeeps(State(), AddManual(owners));
      id := |memories|;
      memories := memories + [Memory(false, false, Active, None, owners)];
    }

    /** A human correction. */
    method SupersedeMemory(id: nat, aboutUser: Option<bool>) returns (replacement: Option<nat>)
      requires Valid(State())
      modifies this`memories
      ensures State() == Step(old(State()), Supersede(id, aboutUser)) && Keeps(old(State()), State())
      ensures replacement.Some? <==> id < |old(memories)| && old(memories)[id].status.Active?
      ensures replacement.Some? ==>
                replacement.value == |old(memories)| && Corrects(old(memories), memories, id, aboutUser)
      ensures replacement.None? ==> memories == old(memories)
    {
      if id < |memories| && memories[id].status.Active? { SupersedingCorrects(State(), id, aboutUser); }
      StepKeeps(State(), Supersede(id, aboutUser));
      if id >= |memories| || !memories[id].status.Active? {
        return None;
      }
      replacement := Some(|memories|);
      memories := memories + [Memory(false, false, Active, Some(id), Corrected(memories[id].owners, aboutUser))];
      memories := memories[id := memories[id].(status := Superseded)];
    }

    method RetractMemory(id: nat) returns (known: bool)
      requires Valid(State())
      modifies this`memories
      ensures State() == Step(old(State()), Retract(id)) && Keeps(old(State()), State())
      ensures known <==> id < |old(memories)|
      ensures known ==> memories == old(memories)[id := old(memories)[id].(status := Retracted)]
      ensures !known ==> memories == old(memories)
    {
      StepKeeps(State(), Retract(id));
      if id >= |memories| {
        return false;
      }
      if !memories[id].status.Retracted? {
        memories := memories[id := memories[id].(status := Retracted)];
      }
      return true;
    }

    method ApplyExtraction(shown: set<nat>, candidates: seq<Candidate>) returns (ghost places: seq<nat>)
      requires Valid(State())
      modifies this`memories
      ensures State() == Step(old(State()), Extract(shown, candidates)) && Keeps(old(State()), State())
      ensures Extracted(old(memories), memories, shown, candidates, places)
    {
      places := ExtractionRecords(State(), shown, candidates);
      StepKeeps(State(), Extract(shown, candidates));
      var comparisons := Comparisons(memories, shown);
      for k := 0 to |candidates|
        invariant State() == ExtractAll(old(State()), comparisons, candidates[..k])
      {
        assert candidates[..k + 1][..k] == candidates[..k];
        var c := candidates[k];
        if c.repeats {
          continue;
        }
        var superseded := c.supersedes.Some? && c.supersedes.value in comparisons && c.supersedes.value < |memories|;
        memories := memories + [Memory(c.inferred, false, Active, if superseded then c.supersedes else None, c.owners)];
        if superseded {
          memories := memories[c.supersedes.value := memories[c.supersedes.value].(status := Superseded)];
        }
      }
      assert candidates[..|candidates|] == candidates;
    }

    method ReconcileInferredMemories(o: Owner, sourceIds: set<nat>, items: seq<Inference>)
      returns (ghost states: seq<Store>)
      modifies this`memories, this`edges
      ensures State() == InferAll(old(State()), o, KnownInferences(old(memories), o, |old(memories)|), sourceIds, items)
      ensures ReconciledInTurn(states, o, sourceIds, items) && states[0] == old(State()) && states[|items|] == State()
    {
      states := InferencesReconcile(State(), o, sourceIds, items);
      var known := KnownInferences(memories, o, |memories|);
      for k := 0 to |items|
        invariant State() == InferAll(old(State()), o, known, sourceIds, items[..k])
      {
        assert items[..k + 1][..k] == items[..k];
        var sources := ValidSources(memories, sourceIds, items[k].sources);
        if sources == {} {
          continue;
        }
        var existing := FirstSimilar(known, items[k].similar);
        if existing.Some? {
          edges := edges + EdgesFrom(existing.value, sources);
        } else {
          edges := edges + EdgesFrom(|memories|, sources);
          memories := memories + [Memory(true, true, Active, None, {o})];
        }
      }
      assert items[..|items|] == items;
    }

    /** Reconciles the inferences against the owner's evidence, then retracts. */
    method ApplyInferredMemoryActions(o: Owner, items: seq<Inference>, shown: set<nat>, retractions: seq<nat>)
      returns (ghost sources: set<nat>, ghost states: seq<Store>)
      requires Valid(State())
      modifies this`memories, this`edges
      ensures State() == Step(old(State()), Infer(o, items, shown, retractions)) && Keeps(old(State()), State())
      ensures forall id: nat :: id in sources <==> IsSource(old(State()), o, id)
      ensures ReconciledInTurn(states, o, sources, items) && states[0] == old(State())
      ensures RetractedThose(states[|items|], State(), o, shown, retractions)
    {
      sources := SourceIds(memories, endpoints, o);
      SourcesAre(State(), o);
      StepKeeps(State(), Infer(o, items, shown, retractions));
      states := ReconcileInferredMemories(o, SourceIds(memories, endpoints, o), items);
      ApplyRetractions(o, shown, retractions);
    }

    method ApplyRetractions(o: Owner, shown: set<nat>, retractions: seq<nat>)
      modifies this`memories
      ensures State() == RetractInferences(old(State()), o, shown, retractions)
      ensures RetractedThose(old(State()), State(), o, shown, retractions)
    {
      RetractionsRetract(State(), o, shown, retractions);
      for k := 0 to |retractions|
        invariant State() == RetractInferences(old(State()), o, shown, retractions[..k])
      {
        assert retractions[..k + 1][..k] == retractions[..k];
        var id := retractions[k];
        if id in shown && id < |memories| && memories[id].inferred && memories[id].status.Active?
            && o in memories[id].owners {
          memories := memories[id := memories[id].(status := Retracted)];
        }
      }
      assert retractions[..|retractions|] == retractions;
    }

    method ApplyClaim(o: Owner, shown: set<nat>, sourceIds: set<nat>, claim: Claim)
      modifies this`hypotheses, this`evidence
      ensures State() == ClaimOne(old(State()), o, shown, sourceIds, claim)
    {
      if claim.hypothesis.Some? && claim.hypothesis.value !in shown {
        return;
      }
      var supporting := Supporting(memories, sourceIds, claim.cited);
      if supporting == {} {
        return;
      }
      var target := ClaimTarget(hypotheses, o, claim);
      if target.Some? {
        hypotheses := hypotheses[target.value := hypotheses[target.value].(text := claim.text)];
        evidence := evidence + EvidenceFor(target.value, supporting);
      } else if claim.hypothesis.None? || claim.hypothesis.value >= |hypotheses| {
        evidence := evidence + EvidenceFor(|hypotheses|, supporting);
        hypotheses := hypotheses + [Hypothesis(o, claim.text, Open, None)];
      }
    }

    method ApplyClaims(o: Owner, shown: set<nat>, sourceIds: set<nat>, claims: seq<Claim>)
      returns (ghost states: seq<Store>)
      modifies this`hypotheses, this`evidence
      ensures State() == ClaimAll(old(State()), o, shown, sourceIds, claims)
      ensures ClaimedInTurn(states, o, shown, sourceIds, claims)
      ensures states[0] == old(State()) && states[|claims|] == State()
    {
      states := ClaimsAreClaimed(State(), o, shown, sourceIds, claims);
      for k := 0 to |claims|
        invariant State() == ClaimAll(old(State()), o, shown, sourceIds, claims[..k])
      {
        assert claims[..k + 1][..k] == claims[..k];
        ApplyClaim(o, shown, sourceIds, claims[k]);
      }
      assert claims[..|claims|] == claims;
    }

    /** Applies the claims with the owner's evidence, then the transitions. */
    method ApplyHypothesisActions(o: Owner, shown: set<nat>, claims: seq<Claim>, transitions: seq<Transition>)
      returns (ghost sources: set<nat>, ghost claiming: seq<Store>, ghost ending: seq<Store>)
      requires Valid(State())
      modifies this`hypotheses, this`evidence
      ensures State() == Step(old(State()), Hypothesize(o, shown, claims, transitions)) && Keeps(old(State()), State())
      ensures forall id: nat :: id in sources <==> IsSource(old(State()), o, id)
      ensures ClaimedInTurn(claiming, o, shown, sources, claims) && claiming[0] == old(State())
      ensures EndedInTurn(ending, o, shown, transitions) && ending[0] == claiming[|claims|]
      ensures ending[|transitions|] == State()
    {
      sources := SourceIds(memories, endpoints, o);
      SourcesAre(State(), o);
      StepKeeps(State(), Hypothesize(o, shown, claims, transitions));
      claiming := ApplyClaims(o, shown, SourceIds(memories, endpoints, o), claims);
      ending := ApplyTransitions(o, shown, transitions);
    }

    method ApplyTransitions(o: Owner, shown: set<nat>, transitions: seq<Transition>) returns (ghost states: seq<Store>)
      modifies this`hypotheses
      ensures State() == TransitionAll(old(State()), o, shown, transitions)
      ensures EndedInTurn(states, o, shown, transitions)
      ensures states[0] == old(State()) && states[|transitions|] == State()
    {
      states := TransitionsEnd(State(), o, shown, transitions);
      for k := 0 to |transitions|
        invariant State() == TransitionAll(old(State()), o, shown, transitions[..k])
      {
        assert transitions[..k + 1][..k] == transitions[..k];
        var t := transitions[k];
        if t.hypothesis !in shown || !IsOpen(hypotheses, o, t.hypothesis) {
          continue;
        }
        if t.status.Promoted? && t.promoted.None? {
          continue;
        }
        if !t.status.Promoted? && t.promoted.Some? {
          continue;
        }
        if t.promoted.Some? {
          var m := t.promoted.value;
          if m >= |memories| || !memories[m].status.Active? || o !in memories[m].owners {
            continue;
          }
        }
        hypotheses := hypotheses[t.hypothesis := hypotheses[t.hypothesis].(status := t.status, promoted := t.promoted)];
      }
      assert transitions[..|transitions|] == transitions;
    }
  }
}

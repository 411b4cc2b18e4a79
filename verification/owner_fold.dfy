/**
  The owner fold: evidence is folded batch by batch into a card that each fold rewrites.

  A rewritten card may be of any size, so a batch that fitted when it was packed may no longer
  fit when its turn comes; it is then packed again beside the present card.
 */
module OwnerFold {
  import opened Wrappers
  import opened Chunking

  /** What one pair of model calls returns: the projection and the actions taken against it. */
  datatype Reply<+P, +A> = Reply(projection: P, actions: seq<A>)

  // ----- The measure

  /** An item weighs as much as its content is long, and at least 1; an empty batch weighs 1. */
  function BatchWeight(batch: seq<Item>): (w: nat)
    ensures w > 0
  {
    if batch == [] then 1 else |Evidence(batch)|
  }

  function PendingWeight(pending: seq<seq<Item>>): nat {
    if pending == [] then 0 else BatchWeight(pending[0]) + PendingWeight(pending[1..])
  }

  lemma {:induction false} PendingWeightAppend(a: seq<seq<Item>>, b: seq<seq<Item>>)
    ensures PendingWeight(a + b) == PendingWeight(a) + PendingWeight(b)
  {
    if a == [] {
      assert a + b == b;
    } else {
      assert (a + b)[1..] == a[1..] + b;
      PendingWeightAppend(a[1..], b);
    }
  }

  /** The evidence in a sequence of batches. */
  function Said(batches: seq<seq<Item>>): seq<Token> {
    if batches == [] then [] else Evidence(batches[0]) + Said(batches[1..])
  }

  lemma {:induction false} SaidIsEvidence(batches: seq<seq<Item>>)
    ensures Said(batches) == Evidence(Flatten(batches))
  {
    if batches != [] {
      SaidIsEvidence(batches[1..]);
      EvidenceAppend(batches[0], Flatten(batches[1..]));
    }
  }

  lemma {:induction false} SaidAppend(a: seq<seq<Item>>, b: seq<seq<Item>>)
    ensures Said(a + b) == Said(a) + Said(b)
  {
    if a == [] {
      assert a + b == b;
    } else {
      assert (a + b)[1..] == a[1..] + b;
      SaidAppend(a[1..], b);
    }
  }

  lemma SaidOfOne(batch: seq<Item>)
    ensures Said([batch]) == Evidence(batch)
    ensures PendingWeight([batch]) == BatchWeight(batch)
  {
    assert [batch][1..] == [];
  }

  /** Cutting evidence into non-empty batches keeps its weight. */
  lemma {:induction false} WeightOfNonEmpty(batches: seq<seq<Item>>)
    requires forall k | 0 <= k < |batches| :: batches[k] != []
    ensures PendingWeight(batches) == |Said(batches)|
  {
    if batches != [] {
      WeightOfNonEmpty(batches[1..]);
    }
  }

  /** The replies' actions, in the order of the replies. */
  function AllActions<P, A>(used: seq<Reply<P, A>>): seq<A> {
    if used == [] then [] else AllActions(used[..|used| - 1]) + used[|used| - 1].actions
  }

  /**
    The fold as it happened: each batch fitted beside the card it was folded into, the k-th reply
    is what the model returned, and its projection rewrote the card.
   */
  ghost predicate Chained<C, P, A>(folded: seq<seq<Item>>, cards: seq<C>, used: seq<Reply<P, A>>,
                                   fits: (seq<Item>, C) -> bool, update: (C, P) -> C,
                                   replies: nat -> Result<Reply<P, A>, Error>)
  {
    && |used| == |folded| && |cards| == |folded| + 1
    && (forall k | 0 <= k < |folded| :: fits(folded[k], cards[k]))
    && (forall k | 0 <= k < |used| :: replies(k) == Ok(used[k]))
    && (forall k {:trigger used[k]} | 0 <= k < |used| :: cards[k + 1] == update(cards[k], used[k].projection))
  }

  lemma ChainedSnoc<C, P, A>(folded: seq<seq<Item>>, cards: seq<C>, used: seq<Reply<P, A>>,
                             batch: seq<Item>, reply: Reply<P, A>,
                             fits: (seq<Item>, C) -> bool, update: (C, P) -> C,
                             replies: nat -> Result<Reply<P, A>, Error>)
    requires Chained(folded, cards, used, fits, update, replies)
    requires fits(batch, cards[|folded|]) && replies(|folded|) == Ok(reply)
    ensures Chained(folded + [batch], cards + [update(cards[|folded|], reply.projection)], used + [reply],
                    fits, update, replies)
    ensures AllActions(used + [reply]) == AllActions(used) + reply.actions
  {
    assert (used + [reply])[..|used|] == used;
    var cards' := cards + [update(cards[|folded|], reply.projection)];
    forall k | 0 <= k < |used| ensures cards'[k + 1] == update(cards'[k], used[k].projection) {
      assert cards'[k + 1] == cards[k + 1];
    }
  }

  // ----- Progress of the loop

  /** Folded and pending batches together hold the evidence, and the pending weight bounds what is to come. */
  ghost predicate Progress(folded: seq<seq<Item>>, pending: seq<seq<Item>>, memories: seq<Item>) {
    && Said(folded) + Said(pending) == Evidence(memories)
    && |folded| + PendingWeight(pending) <= BatchWeight(memories)
  }

  lemma SaidCons(batch: seq<Item>, rest: seq<seq<Item>>)
    ensures Said([batch] + rest) == Evidence(batch) + Said(rest)
    ensures PendingWeight([batch] + rest) == BatchWeight(batch) + PendingWeight(rest)
  {
    assert ([batch] + rest)[1..] == rest;
  }

  lemma SaidSnoc(folded: seq<seq<Item>>, batch: seq<Item>)
    ensures Said(folded + [batch]) == Said(folded) + Evidence(batch)
  {
    SaidAppend(folded, [batch]);
    SaidOfOne(batch);
  }

  lemma Associative<T>(a: seq<T>, b: seq<T>, c: seq<T>)
    ensures (a + b) + c == a + (b + c)
  {
  }

  lemma FirstAndRest<T>(s: seq<T>)
    requires s != []
    ensures s == [s[0]] + s[1..]
  {
  }

  lemma ProgressByFold(folded: seq<seq<Item>>, batch: seq<Item>, rest: seq<seq<Item>>, memories: seq<Item>)
    requires Progress(folded, [batch] + rest, memories)
    ensures Progress(folded + [batch], rest, memories)
    ensures PendingWeight(rest) < PendingWeight([batch] + rest)
  {
    SaidSnoc(folded, batch);
    SaidCons(batch, rest);
    Associative(Said(folded), Evidence(batch), Said(rest));
  }

  lemma ProgressByRepack(folded: seq<seq<Item>>, batch: seq<Item>, pieces: seq<seq<Item>>,
        rest: seq<seq<Item>>, memories: seq<Item>)
    requires Progress(folded, [batch] + rest, memories)
    requires batch != [] && Said(pieces) == Evidence(batch)
    requires forall k | 0 <= k < |pieces| :: pieces[k] != []
    ensures Progress(folded, pieces + rest, memories)
    ensures PendingWeight(pieces + rest) == PendingWeight([batch] + rest)
  {
    WeightOfNonEmpty(pieces);
    SaidAppend(pieces, rest);
    SaidCons(batch, rest);
    PendingWeightAppend(pieces, rest);
  }

  lemma AllFolded(folded: seq<seq<Item>>, memories: seq<Item>)
    requires Progress(folded, [], memories)
    ensures Evidence(Flatten(folded)) == Evidence(memories) && |folded| <= BatchWeight(memories)
    ensures NeighboursDistinct(memories) ==> Reassemble(Evidence(Flatten(folded))) == memories
  {
    SaidIsEvidence(folded);
    if NeighboursDistinct(memories) {
      EvidenceDetermines(memories);
    }
  }

  lemma AtLeastTwo(pieces: seq<seq<Item>>)
    requires |pieces| >= 2 && pieces[0] != []
    ensures Said(pieces) != []
  {
    assert BatchWeight(pieces[0]) > 0;
  }

  lemma FirstPending(memories: seq<Item>, chunks: seq<seq<Item>>)
    requires Said(chunks) == Evidence(memories)
    requires forall k | 0 <= k < |chunks| :: chunks[k] != []
    ensures Progress([], if chunks == [] then [[]] else chunks, memories)
  {
    if chunks == [] {
      SaidOfOne([]);
      assert BatchWeight(memories) >= 1 && BatchWeight([]) == 1;
    } else {
      WeightOfNonEmpty(chunks);
      assert BatchWeight(chunks[0]) > 0;
    }
  }

  // ----- Why a fold stops, and what it does while no card outgrows its batch

  function FitsBeside<C>(fits: (seq<Item>, C) -> bool, card: C): Fits {
    batch => fits(batch, card)
  }

  /** The pieces of a batch that does not fit beside the card fit beside it as one request again, or there are none. */
  ghost predicate StaysWhole<C>(batch: seq<Item>, card: C, fits: (seq<Item>, C) -> bool) {
    && !fits(batch, card) && AllPieces(batch, FitsBeside(fits, card)).Ok?
    && var pieces := AllPieces(batch, FitsBeside(fits, card)).value; pieces == [] || fits(pieces, card)
  }

  /** The batch does not fit beside the card, and packing it again yields nothing better. */
  ghost predicate CannotRepack<C>(batch: seq<Item>, card: C, fits: (seq<Item>, C) -> bool, error: Error) {
    Unpackable(batch, FitsBeside(fits, card), error) || (error.BatchExceedsBudget? && StaysWhole(batch, card, fits))
  }

  /**
    The fold stopped at a batch: what was folded and the batch are a beginning of the evidence, and either the model
    failed on the batch beside the present card, or the batch does not fit there and cannot be packed again.  All the
    evidence is such a batch when it cannot be packed to begin with.
   */
  ghost predicate StoppedAt<C, P, A>(batch: seq<Item>, folded: seq<seq<Item>>, card: C, error: Error,
                                     memories: seq<Item>, fits: (seq<Item>, C) -> bool,
                                     replies: nat -> Result<Reply<P, A>, Error>)
  {
    && Said(folded) + Evidence(batch) <= Evidence(memories)
    && ((folded == [] && batch == memories && Unpackable(batch, FitsBeside(fits, card), error))
        || if fits(batch, card) then replies(|folded|) == Err(error) else CannotRepack(batch, card, fits, error))
  }

  /** Some batch of the first packing no longer fitted beside its card, those before it being folded as packed. */
  ghost predicate Outgrown<C>(first: seq<seq<Item>>, folded: seq<seq<Item>>, cards: seq<C>,
                              fits: (seq<Item>, C) -> bool)
  {
    exists k :: 0 <= k < |first| && k <= |folded| && k < |cards|
                && folded[..k] == first[..k] && !fits(first[k], cards[k])
  }

  /** So far the batches of the first packing are folded one by one, unless a card outgrew its batch. */
  ghost predicate AsPacked<C>(first: seq<seq<Item>>, folded: seq<seq<Item>>, pending: seq<seq<Item>>,
                              cards: seq<C>, fits: (seq<Item>, C) -> bool)
  {
    folded + pending == first || Outgrown(first, folded, cards, fits)
  }

  lemma OutgrownByFold<C>(first: seq<seq<Item>>, folded: seq<seq<Item>>, batch: seq<Item>, cards: seq<C>, card: C,
                          fits: (seq<Item>, C) -> bool)
    requires Outgrown(first, folded, cards, fits)
    ensures Outgrown(first, folded + [batch], cards + [card], fits)
  {
    var k :| 0 <= k < |first| && k <= |folded| && k < |cards| && folded[..k] == first[..k] && !fits(first[k], cards[k]);
    assert (folded + [batch])[..k] == folded[..k] && (cards + [card])[k] == cards[k];
  }

  lemma AsPackedByFold<C>(first: seq<seq<Item>>, folded: seq<seq<Item>>, batch: seq<Item>, rest: seq<seq<Item>>,
                          cards: seq<C>, card: C, fits: (seq<Item>, C) -> bool)
    requires AsPacked(first, folded, [batch] + rest, cards, fits)
    ensures AsPacked(first, folded + [batch], rest, cards + [card], fits)
  {
    if folded + ([batch] + rest) == first {
      assert (folded + [batch]) + rest == first;
    } else {
      OutgrownByFold(first, folded, batch, cards, card, fits);
    }
  }

  lemma AsPackedByRepack<C>(first: seq<seq<Item>>, folded: seq<seq<Item>>, batch: seq<Item>, rest: seq<seq<Item>>,
                            cards: seq<C>, fits: (seq<Item>, C) -> bool, pending: seq<seq<Item>>)
    requires AsPacked(first, folded, [batch] + rest, cards, fits)
    requires |folded| < |cards| && !fits(batch, cards[|folded|])
    ensures AsPacked(first, folded, pending, cards, fits)
  {
    if folded + ([batch] + rest) == first {
      assert first[..|folded|] == folded == folded[..|folded|] && first[|folded|] == batch;
    }
  }

  /** What is pending continues the evidence after what was folded. */
  lemma PendingContinues(folded: seq<seq<Item>>, batch: seq<Item>, rest: seq<seq<Item>>, memories: seq<Item>)
    requires Progress(folded, [batch] + rest, memories)
    ensures Said(folded) + Evidence(batch) <= Evidence(memories)
  {
    SaidCons(batch, rest);
    Associative(Said(folded), Evidence(batch), Said(rest));
  }

  lemma OnePieceStaysWhole<C>(batch: seq<Item>, card: C, fits: (seq<Item>, C) -> bool, pieces: seq<seq<Item>>)
    requires !fits(batch, card) && |pieces| < 2 && AllPieces(batch, FitsBeside(fits, card)) == Ok(Flatten(pieces))
    requires forall k | 0 <= k < |pieces| :: fits(pieces[k], card)
    ensures StaysWhole(batch, card, fits)
  {
    if |pieces| == 1 {
      assert Flatten(pieces) == pieces[0] + Flatten(pieces[1..]) == pieces[0];
    }
  }

  /** The state of the fold's loop. */
  ghost predicate Folding<C, P, A>(first: seq<seq<Item>>, folded: seq<seq<Item>>, pending: seq<seq<Item>>,
                                   cards: seq<C>, used: seq<Reply<P, A>>, projection: Option<P>, collected: seq<A>,
                                   memories: seq<Item>, fits: (seq<Item>, C) -> bool, update: (C, P) -> C,
                                   replies: nat -> Result<Reply<P, A>, Error>)
  {
    && Chained(folded, cards, used, fits, update, replies)
    && Progress(folded, pending, memories) && AsPacked(first, folded, pending, cards, fits)
    && (if folded == [] then pending != [] else projection == Some(used[|used| - 1].projection))
    && collected == AllActions(used)
  }

  lemma FoldingFolds<C, P, A>(first: seq<seq<Item>>, folded: seq<seq<Item>>, batch: seq<Item>, rest: seq<seq<Item>>,
                              cards: seq<C>, used: seq<Reply<P, A>>, projection: Option<P>, collected: seq<A>,
                              memories: seq<Item>, fits: (seq<Item>, C) -> bool, update: (C, P) -> C,
                              replies: nat -> Result<Reply<P, A>, Error>, reply: Reply<P, A>)
    requires Folding(first, folded, [batch] + rest, cards, used, projection, collected, memories, fits, update, replies)
    requires fits(batch, cards[|folded|]) && replies(|folded|) == Ok(reply)
    ensures Folding(first, folded + [batch], rest, cards + [update(cards[|folded|], reply.projection)], used + [reply],
                    Some(reply.projection), collected + reply.actions, memories, fits, update, replies)
    ensures PendingWeight(rest) < PendingWeight([batch] + rest)
  {
    ProgressByFold(folded, batch, rest, memories);
    ChainedSnoc(folded, cards, used, batch, reply, fits, update, replies);
    AsPackedByFold(first, folded, batch, rest, cards, update(cards[|folded|], reply.projection), fits);
  }

  lemma FoldingStops<C, P, A>(first: seq<seq<Item>>, folded: seq<seq<Item>>, batch: seq<Item>, rest: seq<seq<Item>>,
                              cards: seq<C>, used: seq<Reply<P, A>>, projection: Option<P>, collected: seq<A>,
                              memories: seq<Item>, fits: (seq<Item>, C) -> bool, update: (C, P) -> C,
                              replies: nat -> Result<Reply<P, A>, Error>, error: Error)
    requires Folding(first, folded, [batch] + rest, cards, used, projection, collected, memories, fits, update, replies)
    requires
      if fits(batch, cards[|folded|]) then replies(|folded|) == Err(error)
      else CannotRepack(batch, cards[|folded|], fits, error)
    ensures StoppedAt(batch, folded, cards[|folded|], error, memories, fits, replies)
  {
    PendingContinues(folded, batch, rest, memories);
  }

  /** What the fold did, once nothing is pending. */
  lemma FoldingEnds<C, P, A>(first: seq<seq<Item>>, folded: seq<seq<Item>>, cards: seq<C>, used: seq<Reply<P, A>>,
                             projection: Option<P>, collected: seq<A>,
                             memories: seq<Item>, fits: (seq<Item>, C) -> bool, update: (C, P) -> C,
                             replies: nat -> Result<Reply<P, A>, Error>)
    requires Folding(first, folded, [], cards, used, projection, collected, memories, fits, update, replies)
    ensures folded != [] && projection == Some(used[|used| - 1].projection) && collected == AllActions(used)
    ensures Evidence(Flatten(folded)) == Evidence(memories) && |folded| <= BatchWeight(memories)
    ensures NeighboursDistinct(memories) ==> Reassemble(Evidence(Flatten(folded))) == memories
    ensures folded == first || Outgrown(first, folded, cards, fits)
  {
    AllFolded(folded, memories);
    assert folded + [] == folded;
  }

  // ----- The fold

  /** The pass packs one request with the caller's check, which raises exactly on what does not fit. */
  method SplitFor<C>(batch: seq<Item>, card: C, fits: (seq<Item>, C) -> bool) returns (r: Result<seq<seq<Item>>, Error>)
    ensures r.Ok? ==> Said(r.value) == Evidence(batch) && Maximal(r.value, FitsBeside(fits, card))
    ensures r.Ok? ==> forall k | 0 <= k < |r.value| :: r.value[k] != [] && fits(r.value[k], card)
    ensures r.Ok? ==> AllPieces(batch, FitsBeside(fits, card)) == Ok(Flatten(r.value))
    ensures r.Err? ==> Unpackable(batch, FitsBeside(fits, card), r.error)
  {
    var beside, raises := FitsBeside(fits, card), candidate => !fits(candidate, card);
    assert ChecksExactly(beside, raises);
    r := GreedyChunks(batch, beside, raises);
    if r.Ok? {
      SaidIsEvidence(r.value);
      forall k | 0 <= k < |r.value| ensures fits(r.value[k], card) {
        assert r.value[k][..|r.value[k]|] == r.value[k];
      }
    }
  }

  /** An owner with no evidence at all still gets one empty batch. */
  method FirstBatches<C>(memories: seq<Item>, target: C, fits: (seq<Item>, C) -> bool)
    returns (r: Result<seq<seq<Item>>, Error>)
    ensures r.Ok? ==> r.value != [] && Progress([], r.value, memories)
    ensures r.Ok? ==> if memories == [] then r.value == [[]] else Maximal(r.value, FitsBeside(fits, target))
    ensures r.Err? ==> Unpackable(memories, FitsBeside(fits, target), r.error)
  {
    r := SplitFor(memories, target, fits);
    if r.Ok? {
      FirstPending(memories, r.value);
      NothingIsSaidOfNothing(memories, r.value);
      r := Ok(if r.value == [] then [[]] else r.value);
    }
  }

  lemma NothingIsSaidOfNothing(memories: seq<Item>, chunks: seq<seq<Item>>)
    requires Said(chunks) == Evidence(memories)
    requires forall k | 0 <= k < |chunks| :: chunks[k] != []
    ensures chunks == [] <==> memories == []
  {
    if chunks != [] { assert BatchWeight(chunks[0]) > 0; }
    if memories != [] { assert BatchWeight(memories) > 0; }
  }

  /** Packs a batch again beside the card that outgrew it; a batch that stays whole is an error. */
  method Repack<C>(batch: seq<Item>, rest: seq<seq<Item>>, card: C, fits: (seq<Item>, C) -> bool,
                   ghost folded: seq<seq<Item>>, ghost memories: seq<Item>)
    returns (r: Result<seq<seq<Item>>, Error>, ghost pieces: seq<seq<Item>>)
    requires Progress(folded, [batch] + rest, memories) && !fits(batch, card)
    ensures r.Ok? ==> Progress(folded, r.value, memories) && PendingWeight(r.value) == PendingWeight([batch] + rest)
    ensures r.Ok? ==> r.value == pieces + rest && |pieces| >= 2 && Maximal(pieces, FitsBeside(fits, card))
    ensures r.Ok? ==> Said(pieces) == Evidence(batch) && forall k | 0 <= k < |pieces| :: fits(pieces[k], card)
    ensures r.Err? ==> CannotRepack(batch, card, fits, r.error)
  {
    r := SplitFor(batch, card, fits);
    pieces := [];
    if r.Ok? {
      pieces := r.value;
      if |r.value| < 2 {
        OnePieceStaysWhole(batch, card, fits, r.value);
        return Err(BatchExceedsBudget), pieces;
      }
      AtLeastTwo(r.value);
      ProgressByRepack(folded, batch, r.value, rest, memories);
      r := Ok(r.value + rest);
    }
  }

  /**
    Folds `memories` into `target`.  The model is arbitrary: `replies(k)` is whatever the k-th pair
    of calls returns, or its failure, and `update` is whatever rewriting a card does to its size.
    The loop terminates for all of them.  On success every memory was folded exactly once and in
    order, each batch beside a card it fitted, and the actions are those of all replies in order.
    The batches are those packed first, with no fewer possible beside the first card, unless a card
    outgrew one of them; and it fails only at a batch that cannot be packed, or with the model.
   */
  method OwnerReasoning<C, P, A>(memories: seq<Item>, target: C, fits: (seq<Item>, C) -> bool,
                                 update: (C, P) -> C, replies: nat -> Result<Reply<P, A>, Error>)
    returns (r: Result<Reply<P, A>, Error>, folded: seq<seq<Item>>, cards: seq<C>, used: seq<Reply<P, A>>,
             ghost first: seq<seq<Item>>, ghost stopped: seq<Item>)
    ensures Chained(folded, cards, used, fits, update, replies) && cards[0] == target
    ensures r.Ok? ==> folded != [] && r.value.projection == used[|used| - 1].projection
    ensures r.Ok? ==> r.value.actions == AllActions(used)
    ensures r.Ok? ==> Evidence(Flatten(folded)) == Evidence(memories)
    ensures r.Ok? && NeighboursDistinct(memories) ==> Reassemble(Evidence(Flatten(folded))) == memories
    ensures r.Ok? ==> |folded| <= BatchWeight(memories)
    ensures r.Ok? ==> if memories == [] then first == [[]] else Maximal(first, FitsBeside(fits, target))
    ensures r.Ok? ==> folded == first || Outgrown(first, folded, cards, fits)
    ensures r.Err? ==> StoppedAt(stopped, folded, cards[|folded|], r.error, memories, fits, replies)
  {
    first, folded, cards, used, stopped := [], [], [target], [], memories;
    var packed := FirstBatches(memories, target, fits);
    if packed.Err? {
      assert Said([]) + Evidence(memories) == Evidence(memories);
      return Err(packed.error), folded, cards, used, first, stopped;
    }
    first := packed.value;
    r, folded, cards, used, stopped := FoldAll(packed.value, memories, target, fits, update, replies);
  }

  /** The fold's loop over the batches packed first. */
  method FoldAll<C, P, A>(batches: seq<seq<Item>>, ghost memories: seq<Item>, target: C,
                          fits: (seq<Item>, C) -> bool, update: (C, P) -> C,
                          replies: nat -> Result<Reply<P, A>, Error>)
    returns (r: Result<Reply<P, A>, Error>, folded: seq<seq<Item>>, cards: seq<C>, used: seq<Reply<P, A>>,
             ghost stopped: seq<Item>)
    requires batches != [] && Progress([], batches, memories)
    ensures Chained(folded, cards, used, fits, update, replies) && cards[0] == target
    ensures r.Ok? ==> folded != [] && r.value.projection == used[|used| - 1].projection
    ensures r.Ok? ==> r.value.actions == AllActions(used)
    ensures r.Ok? ==> Evidence(Flatten(folded)) == Evidence(memories) && |folded| <= BatchWeight(memories)
    ensures r.Ok? && NeighboursDistinct(memories) ==> Reassemble(Evidence(Flatten(folded))) == memories
    ensures r.Ok? ==> folded == batches || Outgrown(batches, folded, cards, fits)
    ensures r.Err? ==> StoppedAt(stopped, folded, cards[|folded|], r.error, memories, fits, replies)
  {
    folded, cards, used, stopped := [], [target], [], [];
    var pending, card: C, projection: Option<P>, collected: seq<A> := batches, target, None, [];
    assert [] + batches == batches;
    while pending != []
      invariant |cards| == |folded| + 1 && cards[0] == target && card == cards[|folded|]
      invariant Folding(batches, folded, pending, cards, used, projection, collected, memories, fits, update, replies)
      decreases PendingWeight(pending), if pending != [] && !fits(pending[0], card) then 1 else 0
    {
      var batch, rest := pending[0], pending[1..];
      FirstAndRest(pending);
      if !fits(batch, card) {
        var repacked, pieces := Repack(batch, rest, card, fits, folded, memories);
        if repacked.Err? {
          FoldingStops(batches, folded, batch, rest, cards, used, projection, collected, memories, fits, update,
                       replies, repacked.error);
          return Err(repacked.error), folded, cards, used, batch;
        }
        AsPackedByRepack(batches, folded, batch, rest, cards, fits, repacked.value);
        pending := repacked.value;
        continue;
      }
      var answer := replies(|folded|);
      if answer.Err? {
        FoldingStops(batches, folded, batch, rest, cards, used, projection, collected, memories, fits, update,
                     replies, answer.error);
        return Err(answer.error), folded, cards, used, batch;
      }
      var reply := answer.value;
      FoldingFolds(batches, folded, batch, rest, cards, used, projection, collected, memories, fits, update, replies,
                   reply);
      card, projection, collected := update(card, reply.projection), Some(reply.projection), collected + reply.actions;
      folded, cards, used, pending := folded + [batch], cards + [card], used + [reply], rest;
    }
    FoldingEnds(batches, folded, cards, used, projection, collected, memories, fits, update, replies);
    return Ok(Reply(projection.value, collected)), folded, cards, used, [];
  }
}

/**
  Bounding what an owner's reasoning compares against: known inferences and open hypotheses are kept as
  bare ids first, and their wording is added while it fits in a third of the input budget.
 */
module OwnerComparisons {
  import opened ContextBudgets
  import opened Wrappers

  datatype Item = Item(id: nat, content: string)

  /** The stage-2 estimate of a prompt with these inferences and hypotheses and no evidence. */
  type Cost = (seq<Item>, seq<Item>) -> nat

  const PROSE_LIMIT := 1200

  function Skeleton(item: Item): Item {
    item.(content := "")
  }

  function Expanded(item: Item): Item {
    item.(content := if |item.content| <= PROSE_LIMIT then item.content else item.content[..PROSE_LIMIT])
  }

  function Skeletons(items: seq<Item>): (r: seq<Item>)
    ensures |r| == |items|
  {
    seq(|items|, i requires 0 <= i < |items| => Skeleton(items[i]))
  }

  function Ids(items: seq<Item>): seq<nat> {
    seq(|items|, i requires 0 <= i < |items| => items[i].id)
  }

  /** A third of what is usable on top of the scaffolding, in whole tokens, but no more than is usable. */
  function Ceiling(budget: Budget, base: nat): (c: int)
    ensures c <= Usable(budget) && 3 * (c - base) <= Usable(budget)
    ensures c == Usable(budget) || 3 * (c + 1 - base) > Usable(budget)
  {
    if Usable(budget) <= base + Usable(budget) / 3 then Usable(budget) else base + Usable(budget) / 3
  }

  // ----- Ids first

  /** What one of the two lists adds up to beside the other. */
  type ListCost = seq<Item> -> nat

  /** The cost of inferences beside the hypotheses already chosen. */
  function InferredBeside(cost: Cost, hypotheses: seq<Item>): ListCost {
    inferred => cost(inferred, hypotheses)
  }

  /** The cost of hypotheses beside the inferences already chosen. */
  function HypothesisCost(cost: Cost, inferred: seq<Item>): ListCost {
    hypotheses => cost(inferred, hypotheses)
  }

  /** Keeps each bare item that still fits after those kept before it. */
  function Keep(cost: ListCost, ceiling: int, items: seq<Item>): seq<Item> {
    if items == [] then []
    else
      var kept, next := Keep(cost, ceiling, items[..|items| - 1]), Skeleton(items[|items| - 1]);
      if cost(kept + [next]) <= ceiling then kept + [next] else kept
  }

  /** `ids` is some of `all`, in order. */
  ghost predicate Subsequence(ids: seq<nat>, all: seq<nat>) {
    || ids == []
    || (all != [] && Subsequence(ids, all[..|all| - 1]))
    || (all != [] && ids[|ids| - 1] == all[|all| - 1] && Subsequence(ids[..|ids| - 1], all[..|all| - 1]))
  }

  lemma IdsAppend(items: seq<Item>, item: Item)
    ensures Ids(items + [item]) == Ids(items) + [item.id]
  {
  }

  lemma {:induction false} KeptAreSome(cost: ListCost, ceiling: int, items: seq<Item>)
    requires cost([]) <= ceiling
    ensures Subsequence(Ids(Keep(cost, ceiling, items)), Ids(items))
    ensures cost(Keep(cost, ceiling, items)) <= ceiling
    ensures forall k | 0 <= k < |Keep(cost, ceiling, items)| :: Keep(cost, ceiling, items)[k].content == ""
  {
    if items != [] {
      var init, last := items[..|items| - 1], items[|items| - 1];
      KeptAreSome(cost, ceiling, init);
      var kept := Keep(cost, ceiling, init);
      IdsAppend(kept, Skeleton(last));
      assert Ids(items)[..|items| - 1] == Ids(init);
      assert (Ids(kept) + [last.id])[..|kept|] == Ids(kept);
    }
  }

  /** Item `i` is picked exactly when it fits, without wording, after those picked before it. */
  ghost predicate PickedIfFits(cost: ListCost, ceiling: int, items: seq<Item>, kept: seq<Item>, picked: seq<nat>,
                               i: nat)
    requires i < |items| && |picked| == |kept|
  {
    exists n: nat :: IsPlace(picked, i, n)
                     && ((n < |picked| && picked[n] == i) <==> cost(kept[..n] + [Item(items[i].id, "")]) <= ceiling)
  }

  /** Before place `n` are the picks before `i`. */
  ghost predicate IsPlace(picked: seq<nat>, i: nat, n: nat) {
    && n <= |picked| && (forall j | 0 <= j < n :: picked[j] < i)
    && (forall j | n <= j < |picked| :: i <= picked[j])
  }

  /** What is kept are the items at these places, bare and in order. */
  ghost predicate ArePicks(items: seq<Item>, kept: seq<Item>, picked: seq<nat>) {
    && |picked| == |kept| && (forall j, k | 0 <= j < k < |picked| :: picked[j] < picked[k])
    && (forall j | 0 <= j < |picked| :: picked[j] < |items| && kept[j] == Item(items[picked[j]].id, ""))
  }

  ghost predicate EachIfFits(cost: ListCost, ceiling: int, items: seq<Item>, kept: seq<Item>, picked: seq<nat>) {
    |picked| == |kept| && forall i: nat | i < |items| :: PickedIfFits(cost, ceiling, items, kept, picked, i)
  }

  lemma PickStays(cost: ListCost, ceiling: int, items: seq<Item>, last: Item, kept: seq<Item>, more: seq<Item>,
                  picked: seq<nat>, i: nat)
    requires i < |items| && |picked| == |kept| && PickedIfFits(cost, ceiling, items, kept, picked, i)
    ensures PickedIfFits(cost, ceiling, items + [last], kept, picked, i)
    ensures |more| == 1 ==> PickedIfFits(cost, ceiling, items + [last], kept + more, picked + [|items|], i)
  {
    var n: nat :| IsPlace(picked, i, n)
      && ((n < |picked| && picked[n] == i) <==> cost(kept[..n] + [Item(items[i].id, "")]) <= ceiling);
    assert (items + [last])[i] == items[i];
    if |more| == 1 {
      assert IsPlace(picked + [|items|], i, n) && (kept + more)[..n] == kept[..n];
    }
  }

  lemma PickLast(cost: ListCost, ceiling: int, items: seq<Item>, last: Item, kept: seq<Item>, picked: seq<nat>)
    requires |picked| == |kept| && forall j | 0 <= j < |picked| :: picked[j] < |items|
    ensures var fits, next := cost(kept + [Item(last.id, "")]) <= ceiling, Item(last.id, "");
            PickedIfFits(cost, ceiling, items + [last], if fits then kept + [next] else kept,
                         if fits then picked + [|items|] else picked, |items|)
  {
    var fits, next := cost(kept + [Item(last.id, "")]) <= ceiling, Item(last.id, "");
    var kept', picked' := if fits then kept + [next] else kept, if fits then picked + [|items|] else picked;
    assert IsPlace(picked', |items|, |picked|) && kept'[..|picked|] == kept && (items + [last])[|items|] == last;
  }

  lemma EachOneMore(cost: ListCost, ceiling: int, items: seq<Item>, last: Item, kept: seq<Item>, picked: seq<nat>)
    requires EachIfFits(cost, ceiling, items, kept, picked) && forall j | 0 <= j < |picked| :: picked[j] < |items|
    ensures if cost(kept + [Item(last.id, "")]) <= ceiling then
              EachIfFits(cost, ceiling, items + [last], kept + [Item(last.id, "")], picked + [|items|])
            else
              EachIfFits(cost, ceiling, items + [last], kept, picked)
  {
    var next := Item(last.id, "");
    PickLast(cost, ceiling, items, last, kept, picked);
    forall i: nat | i < |items|
      ensures PickedIfFits(cost, ceiling, items + [last], kept, picked, i)
      ensures PickedIfFits(cost, ceiling, items + [last], kept + [next], picked + [|items|], i) {
      PickStays(cost, ceiling, items, last, kept, [next], picked, i);
    }
  }

  lemma OneMorePick(items: seq<Item>, last: Item, kept: seq<Item>, picked: seq<nat>)
    requires ArePicks(items, kept, picked)
    ensures ArePicks(items + [last], kept, picked)
    ensures ArePicks(items + [last], kept + [Item(last.id, "")], picked + [|items|])
  {
  }

  /** What is kept was picked one by one, each item that fitted bare after those picked before it. */
  lemma {:induction false} KeepPicks(cost: ListCost, ceiling: int, items: seq<Item>) returns (picked: seq<nat>)
    ensures ArePicks(items, Keep(cost, ceiling, items), picked)
    ensures EachIfFits(cost, ceiling, items, Keep(cost, ceiling, items), picked)
  {
    picked := [];
    if items != [] {
      var init, last := items[..|items| - 1], items[|items| - 1];
      var kept, next := Keep(cost, ceiling, init), Item(last.id, "");
      picked := KeepPicks(cost, ceiling, init);
      EachOneMore(cost, ceiling, init, last, kept, picked);
      OneMorePick(init, last, kept, picked);
      assert init + [last] == items && Skeleton(last) == next;
      if cost(kept + [next]) <= ceiling { picked := picked + [|init|]; }
    }
  }

  // ----- When no id is dropped

  /** A longer prompt does not cost less. */
  ghost predicate GrowsWithItems(cost: Cost) {
    forall a, a', h, h' | a <= a' && h <= h' :: cost(a, h) <= cost(a', h')
  }

  ghost predicate Grows(cost: ListCost) {
    forall a, a' | a <= a' :: cost(a) <= cost(a')
  }

  lemma SkeletonsAppend(items: seq<Item>)
    requires items != []
    ensures Skeletons(items) == Skeletons(items[..|items| - 1]) + [Skeleton(items[|items| - 1])]
  {
  }

  lemma {:induction false} AllKept(cost: ListCost, ceiling: int, items: seq<Item>)
    requires Grows(cost) && cost(Skeletons(items)) <= ceiling
    ensures Keep(cost, ceiling, items) == Skeletons(items)
  {
    if items != [] {
      SkeletonsAppend(items);
      assert Skeletons(items[..|items| - 1]) <= Skeletons(items);
      AllKept(cost, ceiling, items[..|items| - 1]);
    }
  }

  lemma {:induction false} KeptCount(cost: ListCost, ceiling: int, items: seq<Item>)
    ensures |Keep(cost, ceiling, items)| <= |items|
    ensures |Keep(cost, ceiling, items)| == |items| ==> Keep(cost, ceiling, items) == Skeletons(items)
  {
    if items != [] {
      SkeletonsAppend(items);
      KeptCount(cost, ceiling, items[..|items| - 1]);
    }
  }

  /** All ids are kept exactly when all of them fit without any wording. */
  lemma IdsComeBeforeProse(cost: Cost, ceiling: int, inferred: seq<Item>, hypotheses: seq<Item>)
    requires GrowsWithItems(cost) && cost([], []) <= ceiling
    ensures var kept := Keep(InferredBeside(cost, []), ceiling, inferred);
            Ids(kept) == Ids(inferred) && Ids(Keep(HypothesisCost(cost, kept), ceiling, hypotheses)) == Ids(hypotheses)
            <==> cost(Skeletons(inferred), Skeletons(hypotheses)) <= ceiling
  {
    var kept := Keep(InferredBeside(cost, []), ceiling, inferred);
    var keptHypotheses := Keep(HypothesisCost(cost, kept), ceiling, hypotheses);
    KeptCount(InferredBeside(cost, []), ceiling, inferred);
    KeptCount(HypothesisCost(cost, kept), ceiling, hypotheses);
    KeptAreSome(InferredBeside(cost, []), ceiling, inferred);
    KeptAreSome(HypothesisCost(cost, kept), ceiling, hypotheses);
    if cost(Skeletons(inferred), Skeletons(hypotheses)) <= ceiling {
      assert [] <= Skeletons(hypotheses);
      AllKept(InferredBeside(cost, []), ceiling, inferred);
      AllKept(HypothesisCost(cost, kept), ceiling, hypotheses);
      assert Ids(Skeletons(inferred)) == Ids(inferred) && Ids(Skeletons(hypotheses)) == Ids(hypotheses);
    }
    if Ids(kept) == Ids(inferred) && Ids(keptHypotheses) == Ids(hypotheses) {
      assert |kept| == |Ids(kept)| && |inferred| == |Ids(inferred)|;
      assert |keptHypotheses| == |Ids(hypotheses)|;
    }
  }

  // ----- When it is the tail that is dropped

  lemma KeepAppend(cost: ListCost, ceiling: int, items: seq<Item>, k: nat)
    requires k < |items|
    ensures var kept, next := Keep(cost, ceiling, items[..k]), Skeleton(items[k]);
            Keep(cost, ceiling, items[..k + 1]) == if cost(kept + [next]) <= ceiling then kept + [next] else kept
  {
    assert items[..k + 1][..k] == items[..k];
  }

  /** What is kept of a beginning stays in front. */
  lemma {:induction false} KeepExtends(cost: ListCost, ceiling: int, items: seq<Item>, k: nat, m: nat)
    requires k <= m <= |items|
    ensures Keep(cost, ceiling, items[..k]) <= Keep(cost, ceiling, items[..m])
    decreases m - k
  {
    if k < m {
      KeepAppend(cost, ceiling, items, k);
      KeepExtends(cost, ceiling, items, k + 1, m);
    }
  }

  /** Every beginning of what is kept fits. */
  lemma {:induction false} KeptBeginningsFit(cost: ListCost, ceiling: int, items: seq<Item>, k: nat)
    requires k < |Keep(cost, ceiling, items)|
    ensures cost(Keep(cost, ceiling, items)[..k + 1]) <= ceiling
  {
    var before := Keep(cost, ceiling, items[..|items| - 1]);
    if k < |before| {
      KeptBeginningsFit(cost, ceiling, items[..|items| - 1], k);
      assert Keep(cost, ceiling, items)[..k + 1] == before[..k + 1];
    } else {
      assert Keep(cost, ceiling, items)[..k + 1] == Keep(cost, ceiling, items);
    }
  }

  /** The first `n` fit one after another, and none of the others fits after them. */
  ghost predicate RestDoesNotFit(cost: ListCost, ceiling: int, items: seq<Item>, n: nat)
    requires n <= |items|
  {
    && (forall k | 0 < k <= n :: cost(Skeletons(items[..k])) <= ceiling)
    && (forall k | n <= k < |items| :: cost(Skeletons(items[..n]) + [Skeleton(items[k])]) > ceiling)
  }

  lemma TakeOneMore(items: seq<Item>, k: nat)
    requires 0 < k <= |items|
    ensures Skeletons(items[..k]) == Skeletons(items[..k - 1]) + [Skeleton(items[k - 1])]
  {
  }

  lemma {:induction false} FirstFit(cost: ListCost, ceiling: int, items: seq<Item>, n: nat, k: nat)
    requires n <= |items| && k <= |items| && RestDoesNotFit(cost, ceiling, items, n)
    ensures Keep(cost, ceiling, items[..k]) == Skeletons(items[..if k < n then k else n])
  {
    if 0 < k {
      FirstFit(cost, ceiling, items, n, k - 1);
      KeepAppend(cost, ceiling, items, k - 1);
      if k <= n { TakeOneMore(items, k); }
    }
  }

  lemma {:induction false} FirstKept(cost: ListCost, ceiling: int, items: seq<Item>, n: nat, k: nat)
    requires k <= n <= |items| && Keep(cost, ceiling, items) == Skeletons(items[..n])
    ensures Keep(cost, ceiling, items[..k]) == Skeletons(items[..k])
    ensures k > 0 ==> cost(Skeletons(items[..k])) <= ceiling
  {
    if k > 0 {
      FirstKept(cost, ceiling, items, n, k - 1);
      KeepAppend(cost, ceiling, items, k - 1);
      TakeOneMore(items, k);
      KeptBeginningsFit(cost, ceiling, items, k - 1);
      assert Skeletons(items[..n])[..k] == Skeletons(items[..k]);
    }
  }

  lemma NothingAdded(all: seq<Item>, here: seq<Item>, after: seq<Item>, next: Item, fits: bool)
    requires all <= here <= all && after <= all && after == if fits then here + [next] else here
    ensures here == all && !fits
  {
    assert |after| <= |here|;
  }

  lemma LaterDoesNotFit(cost: ListCost, ceiling: int, items: seq<Item>, n: nat, k: nat)
    requires n <= k < |items|
    requires Keep(cost, ceiling, items[..n]) == Skeletons(items[..n]) == Keep(cost, ceiling, items)
    ensures cost(Skeletons(items[..n]) + [Skeleton(items[k])]) > ceiling
  {
    KeepExtends(cost, ceiling, items, n, k);
    KeepExtends(cost, ceiling, items, k, |items|);
    KeepExtends(cost, ceiling, items, k + 1, |items|);
    KeepAppend(cost, ceiling, items, k);
    assert items[..|items|] == items;
    var here, next := Keep(cost, ceiling, items[..k]), Skeleton(items[k]);
    NothingAdded(Skeletons(items[..n]), here, Keep(cost, ceiling, items[..k + 1]), next,
      cost(here + [next]) <= ceiling);
  }

  /** What is left out is the tail from `n` on exactly when the first `n` fit and nothing after them fits too. */
  lemma TailIsLeftOut(cost: ListCost, ceiling: int, items: seq<Item>, n: nat)
    requires n <= |items|
    ensures Keep(cost, ceiling, items) == Skeletons(items[..n]) <==> RestDoesNotFit(cost, ceiling, items, n)
  {
    if RestDoesNotFit(cost, ceiling, items, n) {
      FirstFit(cost, ceiling, items, n, |items|);
      assert items[..|items|] == items;
    }
    if Keep(cost, ceiling, items) == Skeletons(items[..n]) {
      forall k | 0 < k <= n ensures cost(Skeletons(items[..k])) <= ceiling {
        FirstKept(cost, ceiling, items, n, k);
      }
      FirstKept(cost, ceiling, items, n, n);
      forall k | n <= k < |items| ensures cost(Skeletons(items[..n]) + [Skeleton(items[k])]) > ceiling {
        LaterDoesNotFit(cost, ceiling, items, n, k);
      }
    }
  }

  /** Once a beginning is kept whole, the rest is left out exactly when each later item is over the ceiling. */
  lemma TailAfterKept(cost: ListCost, ceiling: int, items: seq<Item>, n: nat)
    requires n <= |items| && Keep(cost, ceiling, items[..n]) == Skeletons(items[..n])
    ensures Keep(cost, ceiling, items) == Skeletons(items[..n]) <==>
            forall k | n <= k < |items| :: cost(Skeletons(items[..n]) + [Skeleton(items[k])]) > ceiling
  {
    var beginning := items[..n];
    assert beginning[..n] == beginning;
    TailIsLeftOut(cost, ceiling, beginning, n);
    forall k | 0 < k <= n ensures cost(Skeletons(items[..k])) <= ceiling {
      assert beginning[..k] == items[..k];
    }
    TailIsLeftOut(cost, ceiling, items, n);
  }

  /** Whether a prompt names the item of id 1, whose id is the longest. */
  function LongFirst(items: seq<Item>): nat {
    if Item(1, "") in items then 10 else |items|
  }

  /** An id that does not fit is passed over and a later one is kept, so no tail is what is left out. */
  lemma OmissionIsNotTheTail()
    ensures var items := [Item(1, "x"), Item(2, "y")];
            && Keep(LongFirst, 5, items) == [Item(2, "")]
            && forall n | 0 <= n <= 2 :: Keep(LongFirst, 5, items) != Skeletons(items[..n])
  {
    var items := [Item(1, "x"), Item(2, "y")];
    KeepAppend(LongFirst, 5, items, 0);
    KeepAppend(LongFirst, 5, items, 1);
    assert items[..0] == [] && items[..2] == items;
    assert [] + [Skeleton(items[1])] == [Item(2, "")];
    forall n | 0 <= n <= 2 ensures Keep(LongFirst, 5, items) != Skeletons(items[..n]) {
      assert n > 0 ==> Skeletons(items[..n])[0] == Item(1, "");
    }
  }

  // ----- Then wording

  /** The item of an id, as the dictionary over the originals holds it: the last one. */
  function ById(items: seq<Item>, id: nat): (r: Option<Item>)
    ensures r.Some? ==> r.value.id == id && r.value in items
    ensures r.None? ==> forall i | 0 <= i < |items| :: items[i].id != id
  {
    if items == [] then None
    else if items[|items| - 1].id == id then Some(items[|items| - 1])
    else ById(items[..|items| - 1], id)
  }

  /** Each chosen item is bare or carries the beginning of its own wording. */
  ghost predicate FromOriginals(chosen: seq<Item>, originals: seq<Item>) {
    forall k | 0 <= k < |chosen| ::
      || chosen[k].content == ""
      || (ById(originals, chosen[k].id).Some? && chosen[k] == Expanded(ById(originals, chosen[k].id).value))
  }

  ghost predicate IsLastWith(originals: seq<Item>, id: nat, i: nat) {
    i < |originals| && originals[i].id == id && forall j | i < j < |originals| :: originals[j].id != id
  }

  /** The first 1200 characters, at most, of the last original with this id. */
  ghost predicate IsWording(worded: Item, originals: seq<Item>, id: nat) {
    exists i: nat :: IsLastWith(originals, id, i) && worded.id == id && worded.content <= originals[i].content
                     && |worded.content| == if |originals[i].content| < 1200 then |originals[i].content| else 1200
  }

  /** Item `k` has its wording exactly when that fits beside those decided before it and the others still bare. */
  ghost predicate WordedIfFits(cost: ListCost, ceiling: int, originals: seq<Item>, kept: seq<Item>, chosen: seq<Item>,
                               k: nat)
    requires k < |kept| == |chosen|
  {
    exists worded :: IsWording(worded, originals, kept[k].id)
                     && chosen[k] ==
                        if cost(chosen[..k] + [worded] + kept[k + 1..]) <= ceiling then worded else kept[k]
  }

  ghost predicate WordedWhileFits(cost: ListCost, ceiling: int, originals: seq<Item>, kept: seq<Item>,
                                  chosen: seq<Item>)
  {
    |chosen| == |kept| && forall k: nat | k < |kept| :: WordedIfFits(cost, ceiling, originals, kept, chosen, k)
  }

  lemma {:induction false} LastWith(originals: seq<Item>, id: nat) returns (i: nat)
    requires ById(originals, id).Some?
    ensures IsLastWith(originals, id, i) && ById(originals, id) == Some(originals[i])
  {
    i := |originals| - 1;
    if originals[i].id != id { i := LastWith(originals[..i], id); }
  }

  lemma ExpandedIsWording(originals: seq<Item>, id: nat)
    requires ById(originals, id).Some?
    ensures IsWording(Expanded(ById(originals, id).value), originals, id)
  {
    var i := LastWith(originals, id);
  }

  /** The first `n` are decided and the others still bare. */
  ghost predicate Wording(cost: ListCost, ceiling: int, originals: seq<Item>, kept: seq<Item>, chosen: seq<Item>,
                          n: nat)
  {
    && n <= |kept| == |chosen| && chosen[n..] == kept[n..]
    && forall k: nat | k < n :: WordedIfFits(cost, ceiling, originals, kept, chosen, k)
  }

  lemma WordingStep(cost: ListCost, ceiling: int, originals: seq<Item>, kept: seq<Item>, chosen: seq<Item>, n: nat,
                    worded: Item)
    requires Wording(cost, ceiling, originals, kept, chosen, n) && n < |kept|
    requires IsWording(worded, originals, kept[n].id)
    ensures var next := if cost(chosen[n := worded]) <= ceiling then chosen[n := worded] else chosen;
            Wording(cost, ceiling, originals, kept, next, n + 1)
  {
    var next := if cost(chosen[n := worded]) <= ceiling then chosen[n := worded] else chosen;
    assert chosen[n] == chosen[n..][0] == kept[n];
    assert chosen[n := worded] == chosen[..n] + [worded] + chosen[n..][1..];
    assert kept[n..][1..] == kept[n + 1..] && next[..n] == chosen[..n];
    forall k: nat | k < n + 1 ensures WordedIfFits(cost, ceiling, originals, kept, next, k) {
      if k < n {
        assert WordedIfFits(cost, ceiling, originals, kept, chosen, k);
        assert next[..k] == chosen[..k] && next[k] == chosen[k];
      }
    }
    assert next[n + 1..] == chosen[n + 1..] == chosen[n..][1..];
  }

  lemma {:induction false} SubsequenceElements(ids: seq<nat>, all: seq<nat>)
    requires Subsequence(ids, all)
    ensures forall id | id in ids :: id in all
    decreases |all|
  {
    if ids != [] {
      assert ids == ids[..|ids| - 1] + [ids[|ids| - 1]];
      if Subsequence(ids, all[..|all| - 1]) {
        SubsequenceElements(ids, all[..|all| - 1]);
      } else {
        SubsequenceElements(ids[..|ids| - 1], all[..|all| - 1]);
      }
    }
  }

  lemma ReplacedIds(items: seq<Item>, k: nat, item: Item)
    requires k < |items| && item.id == items[k].id
    ensures Ids(items[k := item]) == Ids(items)
  {
  }

  lemma KnownId(chosen: seq<Item>, originals: seq<Item>, k: nat)
    requires Subsequence(Ids(chosen), Ids(originals)) && k < |chosen|
    ensures ById(originals, chosen[k].id).Some?
  {
    SubsequenceElements(Ids(chosen), Ids(originals));
    assert Ids(chosen)[k] in Ids(originals);
    var i :| 0 <= i < |originals| && Ids(originals)[i] == chosen[k].id;
    assert originals[i].id == chosen[k].id;
  }

  method ExpandInferred(cost: Cost, ceiling: int, originals: seq<Item>, kept: seq<Item>,
        hypotheses: seq<Item>) returns (chosen: seq<Item>)
    requires cost(kept, hypotheses) <= ceiling && Subsequence(Ids(kept), Ids(originals))
             && FromOriginals(kept, originals)
    ensures Ids(chosen) == Ids(kept) && cost(chosen, hypotheses) <= ceiling && FromOriginals(chosen, originals)
    ensures WordedWhileFits(InferredBeside(cost, hypotheses), ceiling, originals, kept, chosen)
  {
    chosen := kept;
    for k := 0 to |kept|
      invariant Wording(InferredBeside(cost, hypotheses), ceiling, originals, kept, chosen, k)
      invariant |chosen| == |kept| && Ids(chosen) == Ids(kept) && cost(chosen, hypotheses) <= ceiling
                && FromOriginals(chosen, originals)
    {
      KnownId(chosen, originals, k);
      assert Ids(chosen)[k] == chosen[k].id && Ids(kept)[k] == kept[k].id;
      var expanded := Expanded(ById(originals, kept[k].id).value);
      var candidate := chosen[k := expanded];
      ExpandedIsWording(originals, kept[k].id);
      WordingStep(InferredBeside(cost, hypotheses), ceiling, originals, kept, chosen, k, expanded);
      if cost(candidate, hypotheses) <= ceiling {
        ReplacedIds(chosen, k, expanded);
        chosen := candidate;
      }
    }
  }

  method ExpandHypotheses(cost: Cost, ceiling: int, originals: seq<Item>, inferred: seq<Item>,
        kept: seq<Item>) returns (chosen: seq<Item>)
    requires cost(inferred, kept) <= ceiling && Subsequence(Ids(kept), Ids(originals)) && FromOriginals(kept, originals)
    ensures Ids(chosen) == Ids(kept) && cost(inferred, chosen) <= ceiling && FromOriginals(chosen, originals)
    ensures WordedWhileFits(HypothesisCost(cost, inferred), ceiling, originals, kept, chosen)
  {
    chosen := kept;
    for k := 0 to |kept|
      invariant Wording(HypothesisCost(cost, inferred), ceiling, originals, kept, chosen, k)
      invariant |chosen| == |kept| && Ids(chosen) == Ids(kept) && cost(inferred, chosen) <= ceiling
                && FromOriginals(chosen, originals)
    {
      KnownId(chosen, originals, k);
      assert Ids(chosen)[k] == chosen[k].id && Ids(kept)[k] == kept[k].id;
      var expanded := Expanded(ById(originals, kept[k].id).value);
      var candidate := chosen[k := expanded];
      ExpandedIsWording(originals, kept[k].id);
      WordingStep(HypothesisCost(cost, inferred), ceiling, originals, kept, chosen, k, expanded);
      if cost(inferred, candidate) <= ceiling {
        ReplacedIds(chosen, k, expanded);
        chosen := candidate;
      }
    }
  }

  /**
    How the comparisons were chosen: bare inferences while they fit, beside them bare hypotheses while they fit, then
    the wording of inferences beside the bare hypotheses, then the wording of hypotheses beside worded inferences.
   */
  ghost predicate ChosenAs(cost: Cost, ceiling: int, inferred: seq<Item>, hypotheses: seq<Item>,
                           bare: (seq<Item>, seq<Item>), picked: (seq<nat>, seq<nat>),
                           chosen: (seq<Item>, seq<Item>))
  {
    && ArePicks(inferred, bare.0, picked.0) && EachIfFits(InferredBeside(cost, []), ceiling, inferred, bare.0, picked.0)
    && ArePicks(hypotheses, bare.1, picked.1)
    && EachIfFits(HypothesisCost(cost, bare.0), ceiling, hypotheses, bare.1, picked.1)
    && WordedWhileFits(InferredBeside(cost, bare.1), ceiling, inferred, bare.0, chosen.0)
    && WordedWhileFits(HypothesisCost(cost, chosen.0), ceiling, hypotheses, bare.1, chosen.1)
  }

  /**
    Fails only when the prompt's own scaffolding is over the budget. Otherwise the chosen ids are some of
    the given ones, in order, all of them whenever they fit bare, and the prompt stays under the ceiling.
   */
  method BoundedComparisons(budget: Budget, cost: Cost, inferred: seq<Item>, hypotheses: seq<Item>)
    returns (r: Result<(seq<Item>, seq<Item>), Error>,
             ghost bare: (seq<Item>, seq<Item>), ghost picked: (seq<nat>, seq<nat>))
    requires BudgetValid(budget)
    ensures r.Err? <==> cost([], []) > Usable(budget)
    ensures r.Err? ==> r.error == OverBudget(cost([], []), budget.window - budget.reserve - budget.safety)
    ensures r.Ok? ==> ChosenAs(cost, Ceiling(budget, cost([], [])), inferred, hypotheses, bare, picked, r.value)
    ensures r.Ok? ==>
        && cost(r.value.0, r.value.1) <= Ceiling(budget, cost([], [])) <= Usable(budget)
        && Subsequence(Ids(r.value.0), Ids(inferred)) && Subsequence(Ids(r.value.1), Ids(hypotheses))
        && FromOriginals(r.value.0, inferred) && FromOriginals(r.value.1, hypotheses)
    ensures r.Ok? ==>
        var kept := Keep(InferredBeside(cost, []), Ceiling(budget, cost([], [])), inferred);
        && Ids(r.value.0) == Ids(kept)
        && Ids(r.value.1) == Ids(Keep(HypothesisCost(cost, kept), Ceiling(budget, cost([], [])), hypotheses))
    ensures r.Ok? && GrowsWithItems(cost) ==>
        (Ids(r.value.0) == Ids(inferred) && Ids(r.value.1) == Ids(hypotheses)
         <==> cost(Skeletons(inferred), Skeletons(hypotheses)) <= Ceiling(budget, cost([], [])))
  {
    var base := cost([], []);
    var ceiling := Ceiling(budget, base);
    bare, picked := ([], []), ([], []);
    if base > ceiling {
      return Err(OverBudget(base, ceiling)), bare, picked;
    }
    var chosenInferred, chosenHypotheses := [], [];
    for k := 0 to |inferred|
      invariant chosenInferred == Keep(InferredBeside(cost, []), ceiling, inferred[..k])
    {
      KeepAppend(InferredBeside(cost, []), ceiling, inferred, k);
      if cost(chosenInferred + [Skeleton(inferred[k])], chosenHypotheses) <= ceiling {
        chosenInferred := chosenInferred + [Skeleton(inferred[k])];
      }
    }
    assert inferred[..|inferred|] == inferred;
    for k := 0 to |hypotheses|
      invariant chosenHypotheses == Keep(HypothesisCost(cost, chosenInferred), ceiling, hypotheses[..k])
    {
      KeepAppend(HypothesisCost(cost, chosenInferred), ceiling, hypotheses, k);
      if cost(chosenInferred, chosenHypotheses + [Skeleton(hypotheses[k])]) <= ceiling {
        chosenHypotheses := chosenHypotheses + [Skeleton(hypotheses[k])];
      }
    }
    assert hypotheses[..|hypotheses|] == hypotheses;
    KeptAreSome(InferredBeside(cost, []), ceiling, inferred);
    KeptAreSome(HypothesisCost(cost, chosenInferred), ceiling, hypotheses);
    if GrowsWithItems(cost) { IdsComeBeforeProse(cost, ceiling, inferred, hypotheses); }
    var expandedInferred := ExpandInferred(cost, ceiling, inferred, chosenInferred, chosenHypotheses);
    var expandedHypotheses := ExpandHypotheses(cost, ceiling, hypotheses, expandedInferred, chosenHypotheses);
    bare := (chosenInferred, chosenHypotheses);
    ghost var first := KeepPicks(InferredBeside(cost, []), ceiling, inferred);
    ghost var second := KeepPicks(HypothesisCost(cost, chosenInferred), ceiling, hypotheses);
    picked := (first, second);
    return Ok((expandedInferred, expandedHypotheses)), bare, picked;
  }
}

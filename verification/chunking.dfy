/** Budgeted packing of evidence into requests, with oversized items split by their content. */
module Chunking {
  import opened Wrappers

  /** One evidence item; `content` is None for a model that has no content string. */
  datatype Item = Item(key: nat, content: Option<string>)

  datatype Error = ItemExceedsBudget | BatchExceedsBudget | ModelFailed

  type Fits = seq<Item> -> bool

  function Flatten<T>(chunks: seq<seq<T>>): seq<T> {
    if chunks == [] then [] else chunks[0] + Flatten(chunks[1..])
  }

  lemma {:induction false} FlattenAppend<T>(a: seq<seq<T>>, b: seq<seq<T>>)
    ensures Flatten(a + b) == Flatten(a) + Flatten(b)
  {
    if a == [] {
      assert a + b == b;
    } else {
      assert (a + b)[1..] == a[1..] + b;
      FlattenAppend(a[1..], b);
    }
  }

  lemma FlattenSnoc<T>(a: seq<seq<T>>, last: seq<T>)
    ensures Flatten(a + [last]) == Flatten(a) + last
  {
    FlattenAppend(a, [last]);
    assert Flatten([last]) == last;
  }

  // ----- Evidence: what a sequence of items says, however it is cut into pieces

  /** One character of an item, or a whole item that has no character to cut. */
  datatype Token = Char(key: nat, c: char) | Uncut(item: Item)

  function CharTokens(key: nat, s: string): (r: seq<Token>)
    ensures |r| == |s|
  {
    if s == "" then [] else [Char(key, s[0])] + CharTokens(key, s[1..])
  }

  function ItemTokens(item: Item): (r: seq<Token>)
    ensures r != []
  {
    if item.content.None? || item.content.value == "" then [Uncut(item)] else CharTokens(item.key, item.content.value)
  }

  function Evidence(items: seq<Item>): seq<Token> {
    if items == [] then [] else ItemTokens(items[0]) + Evidence(items[1..])
  }

  lemma {:induction false} EvidenceAppend(a: seq<Item>, b: seq<Item>)
    ensures Evidence(a + b) == Evidence(a) + Evidence(b)
  {
    if a == [] {
      assert a + b == b;
    } else {
      assert (a + b)[1..] == a[1..] + b;
      EvidenceAppend(a[1..], b);
    }
  }

  lemma EvidenceOfOne(item: Item)
    ensures Evidence([item]) == ItemTokens(item)
  {
    assert Evidence([]) == [] && [item][1..] == [];
  }

  lemma {:induction false} CharTokensAppend(key: nat, s: string, t: string)
    ensures CharTokens(key, s + t) == CharTokens(key, s) + CharTokens(key, t)
  {
    if s == "" {
      assert s + t == t;
    } else {
      assert (s + t)[1..] == s[1..] + t;
      CharTokensAppend(key, s[1..], t);
    }
  }

  /** Puts pieces back together: neighbouring characters of one key are one item again. */
  function Reassemble(tokens: seq<Token>): seq<Item> {
    if tokens == [] then []
    else
      var rest := Reassemble(tokens[1..]);
      match tokens[0]
      case Uncut(item) => [item] + rest
      case Char(key, c) =>
        if rest != [] && rest[0].key == key && rest[0].content.Some? && rest[0].content.value != "" then
          [Item(key, Some([c] + rest[0].content.value))] + rest[1..]
        else
          [Item(key, Some([c]))] + rest
  }

  ghost predicate NeighboursDistinct(items: seq<Item>) {
    forall k | 0 <= k < |items| - 1 :: items[k].key != items[k + 1].key
  }

  lemma ReassembleOne(key: nat, c: char, tokens: seq<Token>)
    ensures var rest, all := Reassemble(tokens), Reassemble([Char(key, c)] + tokens);
            if rest != [] && rest[0].key == key && rest[0].content.Some? && rest[0].content.value != "" then
              all == [Item(key, Some([c] + rest[0].content.value))] + rest[1..]
            else
              all == [Item(key, Some([c]))] + rest
  {
    assert ([Char(key, c)] + tokens)[1..] == tokens;
  }

  /** A character before an item of its key joins it; before anything else it is an item of its own. */
  lemma ReassembleBefore(key: nat, c: char, tokens: seq<Token>, rest: seq<Item>)
    ensures Reassemble(tokens) == rest && (rest != [] ==> rest[0].key != key) ==>
              Reassemble([Char(key, c)] + tokens) == [Item(key, Some([c]))] + rest
    ensures forall t: string | t != "" && Reassemble(tokens) == [Item(key, Some(t))] + rest ::
              Reassemble([Char(key, c)] + tokens) == [Item(key, Some([c] + t))] + rest
  {
    ReassembleOne(key, c, tokens);
    forall t: string | t != "" && Reassemble(tokens) == [Item(key, Some(t))] + rest
      ensures Reassemble([Char(key, c)] + tokens) == [Item(key, Some([c] + t))] + rest {
      assert ([Item(key, Some(t))] + rest)[1..] == rest;
    }
  }

  lemma {:induction false} ReassembleChars(key: nat, s: string, tokens: seq<Token>)
    requires s != ""
    requires Reassemble(tokens) != [] ==> Reassemble(tokens)[0].key != key
    ensures Reassemble(CharTokens(key, s) + tokens) == [Item(key, Some(s))] + Reassemble(tokens)
  {
    var tail := CharTokens(key, s[1..]) + tokens;
    assert CharTokens(key, s) + tokens == [Char(key, s[0])] + tail;
    ReassembleBefore(key, s[0], tail, Reassemble(tokens));
    if |s| == 1 {
      assert tail == tokens && s == [s[0]];
    } else {
      ReassembleChars(key, s[1..], tokens);
      assert [s[0]] + s[1..] == s;
    }
  }

  /** The evidence of items with distinct ids determines the items: nothing is lost in it. */
  lemma {:induction false} EvidenceDetermines(items: seq<Item>)
    requires NeighboursDistinct(items)
    ensures Reassemble(Evidence(items)) == items
  {
    if items != [] {
      EvidenceDetermines(items[1..]);
      var item := items[0];
      if item.content.None? || item.content.value == "" {
        assert Evidence(items)[1..] == Evidence(items[1..]);
      } else {
        ReassembleChars(item.key, item.content.value, Evidence(items[1..]));
      }
    }
  }

  // ----- Splitting one oversized item

  function WithContent(item: Item, content: string): Item {
    item.(content := Some(content))
  }

  function Cut(item: Item, content: string, size: nat): seq<Item>
    requires size > 0
  {
    if content == "" then []
    else if |content| <= size then [WithContent(item, content)]
    else [WithContent(item, content[..size])] + Cut(item, content[size..], size)
  }

  lemma {:induction false} CutKeepsEvidence(item: Item, content: string, size: nat)
    requires size > 0
    ensures Evidence(Cut(item, content, size)) == CharTokens(item.key, content)
    ensures forall p | p in Cut(item, content, size) ::
              p.key == item.key && p.content.Some? && 0 < |p.content.value| <= size
  {
    if 0 < |content| <= size {
      assert Evidence([]) == [];
    } else if content != "" {
      CutKeepsEvidence(item, content[size..], size);
      CharTokensAppend(item.key, content[..size], content[size..]);
      assert content[..size] + content[size..] == content;
    }
  }

  function PrefixFits(item: Item, fits: Fits, n: nat): bool
    requires item.content.Some? && n <= |item.content.value|
  {
    fits([WithContent(item, item.content.value[..n])])
  }

  /** The bisection between a length taken to fit and the last one that may. */
  function Bisect(item: Item, fits: Fits, lo: nat, hi: nat): (n: nat)
    requires item.content.Some? && 1 <= lo <= hi <= |item.content.value|
    ensures lo <= n <= hi
    ensures n == lo || PrefixFits(item, fits, n)
    ensures n == hi || !PrefixFits(item, fits, n + 1)
    decreases hi - lo
  {
    if lo == hi then lo
    else
      var middle := (lo + hi + 1) / 2;
      if PrefixFits(item, fits, middle) then Bisect(item, fits, middle, hi) else Bisect(item, fits, lo, middle - 1)
  }

  function Split(item: Item, fits: Fits): Result<seq<Item>, Error> {
    if fits([item]) then Ok([item])
    else if item.content.None? || item.content.value == "" then Err(ItemExceedsBudget)
    else Ok(Cut(item, item.content.value, Bisect(item, fits, 1, |item.content.value|)))
  }

  lemma SplitKeepsEvidence(item: Item, fits: Fits)
    requires Split(item, fits).Ok?
    ensures Evidence(Split(item, fits).value) == ItemTokens(item) && Split(item, fits).value != []
  {
    if fits([item]) {
      assert Evidence([]) == [];
    } else {
      CutKeepsEvidence(item, item.content.value, Bisect(item, fits, 1, |item.content.value|));
    }
  }

  /** When shorter prefixes fit whenever longer ones do, bisection finds the longest fitting one. */
  lemma BisectionFindsLongestPrefix(item: Item, fits: Fits, fitting: nat)
    requires item.content.Some? && 1 <= fitting <= |item.content.value| && PrefixFits(item, fits, fitting)
    requires forall m: nat, n: nat | 1 <= m <= n <= |item.content.value| && PrefixFits(item, fits, n) ::
               PrefixFits(item, fits, m)
    ensures var longest := Bisect(item, fits, 1, |item.content.value|);
            && fitting <= longest && PrefixFits(item, fits, longest)
            && forall n: nat | longest < n <= |item.content.value| :: !PrefixFits(item, fits, n)
  {
    var longest := Bisect(item, fits, 1, |item.content.value|);
    assert PrefixFits(item, fits, 1);
    if longest < |item.content.value| {
      assert !PrefixFits(item, fits, longest + 1);
    }
  }

  /** It does not fit and has no characters to cut. */
  ghost predicate CannotSplit(item: Item, fits: Fits) {
    !fits([item]) && (item.content.None? || item.content.value == "")
  }

  /** The text in pieces of `size` characters, the last of which may be shorter, and nothing else changed. */
  ghost predicate InPieces(item: Item, text: string, pieces: seq<Item>, size: nat) {
    && Evidence(pieces) == CharTokens(item.key, text) && (text != "" ==> pieces != [])
    && (forall k | 0 <= k < |pieces| ::
          pieces[k].key == item.key && pieces[k].content.Some? && 0 < |pieces[k].content.value| <= size)
    && (forall k | 0 <= k < |pieces| - 1 :: |pieces[k].content.value| == size)
  }

  /** A prefix of this length fits, or it is a single character; one character more does not fit, or there is none. */
  ghost predicate IsTurningPoint(item: Item, text: string, size: nat, fits: Fits) {
    && 1 <= size <= |text|
    && (size == 1 || fits([Item(item.key, Some(text[..size]))]))
    && (size == |text| || !fits([Item(item.key, Some(text[..size + 1]))]))
  }

  lemma {:induction false} CutsInPieces(item: Item, text: string, size: nat)
    requires size > 0
    ensures InPieces(item, text, Cut(item, text, size), size)
  {
    CutKeepsEvidence(item, text, size);
    if |text| > size {
      var rest := Cut(item, text[size..], size);
      CutsInPieces(item, text[size..], size);
      forall k | 0 <= k < |rest| ensures |rest[k].content.value| == size || k == |rest| - 1 {}
    }
  }

  method SplitOversized(item: Item, fits: Fits) returns (r: Result<seq<Item>, Error>)
    ensures r == Split(item, fits)
    ensures fits([item]) ==> r == Ok([item])
    ensures r.Err? <==> CannotSplit(item, fits)
    ensures r.Err? ==> r.error == ItemExceedsBudget
    ensures r.Ok? && !fits([item]) ==>
              exists size :: IsTurningPoint(item, item.content.value, size, fits)
                             && InPieces(item, item.content.value, r.value, size)
  {
    if fits([item]) {
      return Ok([item]);
    }
    if item.content.None? || item.content.value == "" {
      return Err(ItemExceedsBudget);
    }
    var size := LongestFitting(item, item.content.value, fits);
    var pieces := CutUp(item, item.content.value, size);
    CutsInPieces(item, item.content.value, size);
    return Ok(pieces);
  }

  lemma BisectTurns(item: Item, content: string, fits: Fits)
    requires item.content == Some(content) && content != ""
    ensures IsTurningPoint(item, content, Bisect(item, fits, 1, |content|), fits)
  {
    var n := Bisect(item, fits, 1, |content|);
    if n > 1 { assert PrefixFits(item, fits, n); }
    if n < |content| { assert !PrefixFits(item, fits, n + 1); }
  }

  method LongestFitting(item: Item, content: string, fits: Fits) returns (lo: nat)
    requires item.content == Some(content) && content != ""
    ensures lo == Bisect(item, fits, 1, |content|) && IsTurningPoint(item, content, lo, fits)
  {
    lo := 1;
    var hi := |content|;
    while lo < hi
      invariant 1 <= lo <= hi <= |content|
      invariant Bisect(item, fits, lo, hi) == Bisect(item, fits, 1, |content|)
    {
      var middle := (lo + hi + 1) / 2;
      var candidate := [WithContent(item, content[..middle])];
      assert fits(candidate) == PrefixFits(item, fits, middle);
      if fits(candidate) {
        lo := middle;
      } else {
        hi := middle - 1;
      }
    }
    BisectTurns(item, content, fits);
  }

  method CutUp(item: Item, content: string, size: nat) returns (pieces: seq<Item>)
    requires size > 0
    ensures pieces == Cut(item, content, size)
  {
    pieces := [];
    var index := 0;
    while index < |content|
      invariant 0 <= index
      invariant index <= |content| ==> pieces + Cut(item, content[index..], size) == Cut(item, content, size)
      invariant index >= |content| ==> pieces == Cut(item, content, size)
      decreases |content| - index
    {
      var end := if index + size < |content| then index + size else |content|;
      ghost var rest := content[index..];
      assert content[index..end] == rest[..end - index] && content[end..] == rest[end - index..];
      assert |rest| <= size ==> content[index..end] == rest;
      assert Cut(item, rest, size) == [WithContent(item, content[index..end])] + Cut(item, content[end..], size);
      pieces := pieces + [WithContent(item, content[index..end])];
      assert pieces + Cut(item, content[end..], size) == Cut(item, content, size);
      assert end == |content| ==> Cut(item, content[end..], size) == [] && pieces + [] == pieces;
      index := index + size;
    }
  }

  // ----- Greedy packing

  function Prepend(pieces: seq<Item>, rest: Result<seq<Item>, Error>): Result<seq<Item>, Error> {
    if rest.Err? then rest else Ok(pieces + rest.value)
  }

  /** The pieces of all items in order; the first item that cannot be split is an error. */
  function AllPieces(items: seq<Item>, fits: Fits): Result<seq<Item>, Error> {
    if items == [] then Ok([])
    else
      var first := Split(items[0], fits);
      if first.Err? then first else Prepend(first.value, AllPieces(items[1..], fits))
  }

  lemma {:induction false} AllPiecesKeepEvidence(items: seq<Item>, fits: Fits)
    requires AllPieces(items, fits).Ok?
    ensures Evidence(AllPieces(items, fits).value) == Evidence(items)
  {
    if items != [] {
      var first, rest := Split(items[0], fits).value, AllPieces(items[1..], fits).value;
      SplitKeepsEvidence(items[0], fits);
      AllPiecesKeepEvidence(items[1..], fits);
      EvidenceAppend(first, rest);
      assert AllPieces(items, fits).value == first + rest;
    }
  }

  /** Every chunk but the last was closed because the next piece did not fit into it. */
  ghost predicate Maximal(chunks: seq<seq<Item>>, fits: Fits) {
    && (forall k | 0 <= k < |chunks| :: chunks[k] != [])
    && (forall k | 0 <= k < |chunks| - 1 :: !fits(chunks[k] + [chunks[k + 1][0]]))
  }

  /** The caller's check accepted the chunk at every size it grew through. */
  ghost predicate Checked(chunk: seq<Item>, raises: Fits) {
    forall n | 0 < n <= |chunk| :: !raises(chunk[..n])
  }

  /** The caller's check raises exactly on the chunks that do not fit. */
  ghost predicate ChecksExactly(fits: Fits, raises: Fits) {
    forall c: seq<Item> :: raises(c) <==> !fits(c)
  }

  /** Every non-empty stretch of a fitting chunk fits. */
  ghost predicate ClosedUnderSubsequences(fits: Fits) {
    forall s: seq<Item>, a, b | 0 <= a < b <= |s| && fits(s) :: fits(s[a..b])
  }

  ghost predicate EachFitsAlone(pieces: seq<Item>, fits: Fits) {
    forall p | p in pieces :: fits([p])
  }

  /** Consecutive chunks that are empty or fit. */
  ghost predicate AllFit(chunks: seq<seq<Item>>, fits: Fits) {
    forall k | 0 <= k < |chunks| :: chunks[k] == [] || fits(chunks[k])
  }

  /** No other way of cutting the same pieces into consecutive fitting chunks needs fewer. */
  ghost predicate Fewest(chunks: seq<seq<Item>>, fits: Fits) {
    forall other | Flatten(other) == Flatten(chunks) && AllFit(other, fits) :: |chunks| <= |other|
  }

  /** Some piece of the item does not fit even alone. */
  ghost predicate HasMisfit(item: Item, fits: Fits) {
    Split(item, fits).Ok? && exists p :: p in Split(item, fits).value && !fits([p])
  }

  ghost predicate SomeCannotSplit(items: seq<Item>, fits: Fits) {
    exists item :: item in items && CannotSplit(item, fits)
  }

  /** Why packing is refused: an item cannot be split, or a piece of one does not fit alone. */
  ghost predicate Unpackable(items: seq<Item>, fits: Fits, error: Error) {
    match error
    case ItemExceedsBudget => SomeCannotSplit(items, fits)
    case BatchExceedsBudget => exists item :: item in items && HasMisfit(item, fits)
    case ModelFailed => false
  }

  /**
    Packs `items` in order.  `raises(chunk)` says that the caller's `check(chunk)` raises.
    When `check` raises exactly on what does not fit, packing succeeds if every item can be split
    and each of its pieces fits alone; when parts of a fitting chunk fit, it succeeds only then.
   */
  method GreedyChunks(items: seq<Item>, fits: Fits, raises: Fits) returns (r: Result<seq<seq<Item>>, Error>)
    ensures r.Ok? ==> AllPieces(items, fits).Ok? && Flatten(r.value) == AllPieces(items, fits).value
    ensures r.Ok? ==> Evidence(Flatten(r.value)) == Evidence(items)
    ensures r.Ok? ==> Maximal(r.value, fits) && forall k | 0 <= k < |r.value| :: Checked(r.value[k], raises)
    ensures ChecksExactly(fits, raises) && AllPieces(items, fits).Ok? ==>
              EachFitsAlone(AllPieces(items, fits).value, fits) ==> r.Ok?
    ensures ChecksExactly(fits, raises) && ClosedUnderSubsequences(fits) && r.Ok? ==>
              EachFitsAlone(Flatten(r.value), fits)
    ensures ClosedUnderSubsequences(fits) && r.Ok? ==> Fewest(r.value, fits)
    ensures SomeCannotSplit(items, fits) ==> r.Err?
    ensures ChecksExactly(fits, raises) && r.Err? ==> Unpackable(items, fits, r.error)
  {
    CannotPack(items, fits);
    var chunks: seq<seq<Item>>, current: seq<Item> := [], [];
    ghost var packed: seq<Item> := [];
    assert items[0..] == items;
    PlacedAll([], [], AllPieces(items, fits));
    for i := 0 to |items|
      invariant AllPieces(items, fits) == Prepend(packed, AllPieces(items[i..], fits))
      invariant Packing(chunks, current, packed, fits, raises)
    {
      assert items[i..][1..] == items[i + 1..];
      var split := SplitOversized(items[i], fits);
      if split.Err? {
        ItemRefuses(items, i, fits);
        return Err(split.error);
      }
      var pieces := split.value;
      ghost var later := AllPieces(items[i + 1..], fits);
      assert packed + [] == packed && pieces[0..] == pieces;
      for j := 0 to |pieces|
        invariant AllPieces(items, fits) == Prepend(packed, Prepend(pieces[j..], later))
        invariant Packing(chunks, current, packed, fits, raises)
      {
        var fitted;
        chunks, current, fitted := Place(chunks, current, pieces[j], fits, raises, packed);
        PlaceNext(packed, pieces[j..], later);
        if !fitted {
          PieceRefuses(items, i, pieces, j, fits);
          return Err(BatchExceedsBudget);
        }
        packed := packed + [pieces[j]];
        assert pieces[j..][1..] == pieces[j + 1..];
      }
      PlacedAll(packed, pieces[|pieces|..], later);
    }
    PlacedAll(packed, [], AllPieces([], fits));
    AllPiecesKeepEvidence(items, fits);
    chunks := LastChunk(chunks, current, packed, fits, raises);
    if ClosedUnderSubsequences(fits) { MaximalIsFewest(chunks, fits); }
    return Ok(chunks);
  }

  lemma ItemRefuses(items: seq<Item>, i: nat, fits: Fits)
    requires i < |items| && CannotSplit(items[i], fits)
    ensures Unpackable(items, fits, ItemExceedsBudget)
  {
    assert items[i] in items;
  }

  lemma PieceRefuses(items: seq<Item>, i: nat, pieces: seq<Item>, j: nat, fits: Fits)
    requires i < |items| && Split(items[i], fits) == Ok(pieces) && j < |pieces|
    ensures !fits([pieces[j]]) ==> Unpackable(items, fits, BatchExceedsBudget)
  {
    assert items[i] in items && pieces[j] in pieces;
  }

  lemma {:induction false} CannotPack(items: seq<Item>, fits: Fits)
    ensures SomeCannotSplit(items, fits) ==> AllPieces(items, fits).Err?
  {
    if items != [] {
      CannotPack(items[1..], fits);
      assert items == [items[0]] + items[1..];
    }
  }

  lemma PlaceNext(packed: seq<Item>, pieces: seq<Item>, later: Result<seq<Item>, Error>)
    requires pieces != []
    ensures Prepend(packed, Prepend(pieces, later)) == Prepend(packed + [pieces[0]], Prepend(pieces[1..], later))
    ensures later.Ok? ==> pieces[0] in Prepend(packed, Prepend(pieces, later)).value
  {
    if later.Ok? {
      var all := packed + (pieces + later.value);
      assert all == packed + [pieces[0]] + (pieces[1..] + later.value);
      assert all[|packed|] == pieces[0];
    }
  }

  lemma PlacedAll(packed: seq<Item>, none: seq<Item>, later: Result<seq<Item>, Error>)
    requires none == []
    ensures Prepend(packed, Prepend(none, later)) == Prepend(packed, later)
    ensures Prepend([], later) == later
    ensures later == Ok([]) ==> Prepend(packed, later) == Ok(packed)
  {
    assert packed + [] == packed;
    if later.Ok? {
      assert none + later.value == later.value && [] + later.value == later.value;
    }
  }

  /** One turn of the inner loop: close the chunk if the piece does not fit into it, then grow. */
  method Place(chunks: seq<seq<Item>>, current: seq<Item>, piece: Item, fits: Fits, raises: Fits,
        ghost packed: seq<Item>)
    returns (chunks': seq<seq<Item>>, current': seq<Item>, accepted: bool)
    requires Packing(chunks, current, packed, fits, raises)
    ensures accepted ==> Packing(chunks', current', packed + [piece], fits, raises)
    ensures !accepted ==> (ChecksExactly(fits, raises) ==> !fits([piece]))
  {
    chunks', current' := chunks, current;
    if current != [] && !fits(current + [piece]) {
      chunks', current' := chunks + [current], [];
    }
    current' := current' + [piece];
    accepted := !raises(current');
    assert current' == [piece] || fits(current');
    PackOne(chunks, current, packed, piece, fits, raises);
  }

  method LastChunk(chunks: seq<seq<Item>>, current: seq<Item>, ghost packed: seq<Item>, fits: Fits, raises: Fits)
    returns (all: seq<seq<Item>>)
    requires Packing(chunks, current, packed, fits, raises)
    ensures Flatten(all) == packed && Maximal(all, fits)
    ensures forall k | 0 <= k < |all| :: Checked(all[k], raises)
    ensures ChecksExactly(fits, raises) && ClosedUnderSubsequences(fits) ==> EachFitsAlone(packed, fits)
  {
    all := chunks;
    if current != [] {
      FlattenSnoc(chunks, current);
      all := chunks + [current];
    }
  }

  /** The state of the packing loop after it has placed `packed`. */
  ghost predicate Packing(chunks: seq<seq<Item>>, current: seq<Item>, packed: seq<Item>, fits: Fits, raises: Fits) {
    && Flatten(chunks) + current == packed
    && (current == [] ==> chunks == [])
    && (current != [] ==> Maximal(chunks + [current], fits))
    && (forall k | 0 <= k < |chunks| :: Checked(chunks[k], raises))
    && Checked(current, raises)
    && (ChecksExactly(fits, raises) && ClosedUnderSubsequences(fits) ==> EachFitsAlone(packed, fits))
  }

  lemma MaximalGrows(chunks: seq<seq<Item>>, last: seq<Item>, grown: seq<Item>, fits: Fits)
    requires Maximal(chunks + [last], fits) && last != [] && last <= grown
    ensures Maximal(chunks + [grown], fits)
  {
    var before, after := chunks + [last], chunks + [grown];
    forall k | 0 <= k < |after| ensures after[k] != [] {
      assert before[k] != [];
    }
    forall k | 0 <= k < |after| - 1 ensures !fits(after[k] + [after[k + 1][0]]) {
      assert !fits(before[k] + [before[k + 1][0]]);
    }
  }

  lemma MaximalSnoc(chunks: seq<seq<Item>>, last: seq<Item>, piece: Item, fits: Fits)
    requires Maximal(chunks + [last], fits) && !fits(last + [piece])
    ensures Maximal(chunks + [last] + [[piece]], fits)
  {
    var before := chunks + [last];
    var after := before + [[piece]];
    forall k | 0 <= k < |after| - 1 ensures !fits(after[k] + [after[k + 1][0]]) {
      if k < |chunks| { assert !fits(before[k] + [before[k + 1][0]]); }
    }
  }

  lemma PackOne(chunks: seq<seq<Item>>, current: seq<Item>, packed: seq<Item>, piece: Item, fits: Fits, raises: Fits)
    requires Packing(chunks, current, packed, fits, raises)
    ensures var closes := current != [] && !fits(current + [piece]);
            var chunks' := if closes then chunks + [current] else chunks;
            var current' := (if closes then [] else current) + [piece];
            !raises(current') ==> Packing(chunks', current', packed + [piece], fits, raises)
  {
    if current != [] && !fits(current + [piece]) {
      FlattenSnoc(chunks, current);
      MaximalSnoc(chunks, current, piece, fits);
      assert [] + [piece] == [piece] && [piece][..1] == [piece];
    } else {
      var grown := current + [piece];
      forall n | 0 < n <= |grown| && !raises(grown) ensures !raises(grown[..n]) {
        assert n <= |current| ==> grown[..n] == current[..n];
        assert n == |grown| ==> grown[..n] == grown;
      }
      if current != [] {
        MaximalGrows(chunks, current, grown, fits);
      }
      assert Flatten(chunks) + grown == packed + [piece];
      assert grown[|current|..|grown|] == [piece];
    }
  }

  // ----- Greedy is optimal

  /** What greedy packed first, and one more piece, would lie inside the other packing's chunk. */
  lemma GrownChunkInside(chunks: seq<seq<Item>>, other: seq<seq<Item>>, skip: nat, fits: Fits)
    requires ClosedUnderSubsequences(fits) && other != [] && fits(other[0])
    requires |chunks| > 1 && chunks[0] != [] && chunks[1] != []
    requires skip <= |Flatten(other)| && Flatten(chunks) == Flatten(other)[skip..]
    requires skip + |chunks[0]| < |other[0]|
    ensures fits(chunks[0] + [chunks[1][0]])
  {
    var first, all, grown := other[0], Flatten(other), chunks[0] + [chunks[1][0]];
    assert Flatten(chunks[1..]) == chunks[1] + Flatten(chunks[1..][1..]);
    assert Flatten(chunks)[..|grown|] == grown;
    assert first[skip..skip + |grown|] == all[skip..][..|grown|];
  }

  lemma FirstChunkReaches(chunks: seq<seq<Item>>, other: seq<seq<Item>>, skip: nat, fits: Fits)
    requires Maximal(chunks, fits) && ClosedUnderSubsequences(fits) && chunks != [] && other != [] && fits(other[0])
    requires skip <= |Flatten(other)| && Flatten(chunks) == Flatten(other)[skip..]
    ensures |other[0]| <= skip + |chunks[0]|
  {
    if |chunks| == 1 {
      assert Flatten(chunks) == chunks[0] + Flatten([]);
    } else if skip + |chunks[0]| < |other[0]| {
      GrownChunkInside(chunks, other, skip, fits);
    }
  }

  /**
    No way of cutting the same pieces into consecutive fitting chunks needs fewer chunks.  The
    induction lets the other packing have placed `skip` pieces that greedy has not been given.
   */
  lemma {:induction false} GreedyStaysAhead(chunks: seq<seq<Item>>, other: seq<seq<Item>>, skip: nat, fits: Fits)
    requires Maximal(chunks, fits) && ClosedUnderSubsequences(fits)
    requires AllFit(other, fits)
    requires skip <= |Flatten(other)| && Flatten(chunks) == Flatten(other)[skip..]
    ensures |chunks| <= |other|
    decreases |other|
  {
    if chunks != [] {
      assert Flatten(chunks) == chunks[0] + Flatten(chunks[1..]) && chunks[0] != [];
      assert other != [];
      var first, all := other[0], Flatten(other);
      assert all == first + Flatten(other[1..]);
      if |first| <= skip {
        GreedyStaysAhead(chunks, other[1..], skip - |first|, fits);
      } else {
        FirstChunkReaches(chunks, other, skip, fits);
        var done := skip + |chunks[0]|;
        assert all[skip..][|chunks[0]|..] == all[done..] == Flatten(chunks[1..]);
        assert all[done..] == Flatten(other[1..])[done - |first|..];
        forall k | 0 <= k < |chunks[1..]| - 1 ensures !fits(chunks[1..][k] + [chunks[1..][k + 1][0]]) {
          assert !fits(chunks[k + 1] + [chunks[k + 2][0]]);
        }
        GreedyStaysAhead(chunks[1..], other[1..], done - |first|, fits);
      }
    }
  }

  lemma GreedyIsOptimal(chunks: seq<seq<Item>>, other: seq<seq<Item>>, fits: Fits)
    requires Maximal(chunks, fits) && ClosedUnderSubsequences(fits)
    requires Flatten(chunks) == Flatten(other)
    requires AllFit(other, fits)
    ensures |chunks| <= |other|
  {
    assert Flatten(other)[0..] == Flatten(other);
    GreedyStaysAhead(chunks, other, 0, fits);
  }

  lemma MaximalIsFewest(chunks: seq<seq<Item>>, fits: Fits)
    requires Maximal(chunks, fits) && ClosedUnderSubsequences(fits)
    ensures Fewest(chunks, fits)
  {
    forall other | Flatten(other) == Flatten(chunks) && AllFit(other, fits) ensures |chunks| <= |other| {
      GreedyIsOptimal(chunks, other, fits);
    }
  }
}

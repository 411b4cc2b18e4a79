/** What one audit request holds: the first chunk of a root's backlog, whose last Memory may be cut. */
module CoverageRequests {
  import opened Chunking
  import opened Wrappers

  ghost predicate Mentions(items: seq<Item>, key: nat) {
    exists i :: 0 <= i < |items| && items[i].key == key
  }

  ghost predicate DistinctKeys(items: seq<Item>) {
    forall i, j | 0 <= i < j < |items| :: items[i].key != items[j].key
  }

  /** The request holds pieces of the first `size` Memories, and all of each but perhaps of the last. */
  ghost predicate Holds(items: seq<Item>, chunk: seq<Item>, size: nat) {
    && 0 < size <= |items|
    && (forall key: nat :: Mentions(chunk, key) <==> Mentions(items[..size], key))
    && Evidence(items[..size - 1]) < Evidence(chunk) <= Evidence(items[..size])
  }

  // ----- Tokens know their Memory

  function TokenKey(t: Token): nat {
    match t
    case Char(key, _) => key
    case Uncut(item) => item.key
  }

  ghost predicate Says(tokens: seq<Token>, key: nat) {
    exists k :: 0 <= k < |tokens| && TokenKey(tokens[k]) == key
  }

  lemma {:induction false} CharTokenKeys(key: nat, s: string)
    ensures forall k | 0 <= k < |s| :: TokenKey(CharTokens(key, s)[k]) == key
  {
    if s != "" { CharTokenKeys(key, s[1..]); }
  }

  lemma ItemTokenKeys(item: Item)
    ensures forall k | 0 <= k < |ItemTokens(item)| :: TokenKey(ItemTokens(item)[k]) == item.key
  {
    if item.content.Some? { CharTokenKeys(item.key, item.content.value); }
  }

  lemma {:induction false} EvidenceSays(items: seq<Item>, key: nat)
    ensures Says(Evidence(items), key) <==> Mentions(items, key)
  {
    if items != [] {
      var first, rest := ItemTokens(items[0]), Evidence(items[1..]);
      ItemTokenKeys(items[0]);
      EvidenceSays(items[1..], key);
      if k :| 0 <= k < |Evidence(items)| && TokenKey(Evidence(items)[k]) == key {
        assert k >= |first| ==> Evidence(items)[k] == rest[k - |first|];
        if i :| 0 <= i < |items[1..]| && items[1..][i].key == key { assert items[i + 1].key == key; }
      }
      if i :| 0 <= i < |items| && items[i].key == key {
        if i == 0 {
          assert TokenKey(Evidence(items)[0]) == key;
        } else {
          assert items[1..][i - 1].key == key;
          var k :| 0 <= k < |rest| && TokenKey(rest[k]) == key;
          assert Evidence(items)[|first| + k] == rest[k];
        }
      }
    }
  }

  lemma SaysMore(shorter: seq<Token>, longer: seq<Token>, key: nat)
    requires shorter <= longer && Says(shorter, key)
    ensures Says(longer, key)
  {
    var k :| 0 <= k < |shorter| && TokenKey(shorter[k]) == key;
    assert longer[k] == shorter[k];
  }

  lemma EvidenceOfPrefix(items: seq<Item>, n: nat)
    requires n <= |items|
    ensures Evidence(items[..n]) <= Evidence(items)
  {
    EvidenceAppend(items[..n], items[n..]);
    assert items == items[..n] + items[n..];
  }

  lemma EvidenceStep(items: seq<Item>, size: nat)
    requires 0 < size <= |items|
    ensures Evidence(items[..size]) == Evidence(items[..size - 1]) + ItemTokens(items[size - 1])
  {
    assert items[..size] == items[..size - 1] + [items[size - 1]];
    EvidenceAppend(items[..size - 1], [items[size - 1]]);
    EvidenceOfOne(items[size - 1]);
  }

  // ----- How far a request reaches

  /** The Memory in which the first `n` tokens end. */
  lemma {:induction false} Reaches(items: seq<Item>, n: nat, upTo: nat) returns (size: nat)
    requires upTo <= |items| && 0 < n <= |Evidence(items[..upTo])|
    ensures 0 < size <= upTo && |Evidence(items[..size - 1])| < n <= |Evidence(items[..size])|
    decreases upTo
  {
    if upTo > 0 && n <= |Evidence(items[..upTo - 1])| {
      size := Reaches(items, n, upTo - 1);
    } else {
      size := upTo;
    }
  }

  /** A chunk whose evidence is a beginning of the backlog's holds a beginning of the backlog. */
  lemma BeginningHolds(items: seq<Item>, chunk: seq<Item>) returns (size: nat)
    requires chunk != [] && Evidence(chunk) <= Evidence(items)
    ensures Holds(items, chunk, size)
  {
    assert items[..|items|] == items;
    size := Reaches(items, |Evidence(chunk)|, |items|);
    EvidenceOfPrefix(items, size);
    EvidenceOfPrefix(items, size - 1);
    forall key: nat ensures Mentions(chunk, key) <==> Mentions(items[..size], key) {
      SameMemories(items, chunk, size, key);
    }
  }

  lemma SameMemories(items: seq<Item>, chunk: seq<Item>, size: nat, key: nat)
    requires 0 < size <= |items| && Evidence(items[..size - 1]) < Evidence(chunk) <= Evidence(items[..size])
    ensures Mentions(chunk, key) <==> Mentions(items[..size], key)
  {
    EvidenceSays(chunk, key);
    EvidenceSays(items[..size], key);
    EvidenceSays(items[..size - 1], key);
    if Mentions(chunk, key) { SaysMore(Evidence(chunk), Evidence(items[..size]), key); }
    if i :| 0 <= i < size && items[..size][i].key == key {
      if i < size - 1 {
        assert items[..size - 1][i].key == key;
        SaysMore(Evidence(items[..size - 1]), Evidence(chunk), key);
      } else {
        var before := |Evidence(items[..size - 1])|;
        EvidenceStep(items, size);
        ItemTokenKeys(items[size - 1]);
        assert Evidence(chunk)[before] == ItemTokens(items[size - 1])[0];
      }
    }
  }

  predicate MentionedIn(chunk: seq<Item>, key: nat) {
    exists i | 0 <= i < |chunk| :: chunk[i].key == key
  }

  /** How many Memories, from the first on, have a piece in the request. */
  function Reached(items: seq<Item>, chunk: seq<Item>): nat {
    if items == [] || !MentionedIn(chunk, items[0].key) then 0 else 1 + Reached(items[1..], chunk)
  }

  lemma {:induction false} ReachedIsSize(items: seq<Item>, chunk: seq<Item>, size: nat, from: nat)
    requires DistinctKeys(items) && Holds(items, chunk, size) && from <= size
    ensures Reached(items[from..], chunk) == size - from
    decreases size - from
  {
    var rest := items[from..];
    if from < size {
      assert items[..size][from].key == rest[0].key;
      assert Mentions(chunk, rest[0].key);
      assert rest[1..] == items[from + 1..];
      ReachedIsSize(items, chunk, size, from + 1);
    } else if rest != [] {
      assert !Mentions(items[..size], rest[0].key);
      assert !Mentions(chunk, rest[0].key);
    }
  }

  // ----- The packer's first chunk

  lemma {:induction false} WholeItemsAreNotCut(items: seq<Item>, fits: Fits)
    requires EachFitsAlone(items, fits)
    ensures AllPieces(items, fits) == Ok(items)
  {
    if items != [] {
      WholeItemsAreNotCut(items[1..], fits);
      assert [items[0]] + items[1..] == items;
    }
  }

  lemma FirstChunk(items: seq<Item>, chunks: seq<seq<Item>>)
    requires items != [] && Evidence(Flatten(chunks)) == Evidence(items)
    ensures chunks != [] && Evidence(chunks[0]) <= Evidence(items) && chunks[0] <= Flatten(chunks)
    ensures forall fits | Maximal(chunks, fits) :: FillsUp(Flatten(chunks), chunks[0], fits)
  {
    assert Evidence(items) == ItemTokens(items[0]) + Evidence(items[1..]);
    assert Flatten(chunks) == chunks[0] + Flatten(chunks[1..]);
    EvidenceAppend(chunks[0], Flatten(chunks[1..]));
    if |chunks| > 1 {
      assert Flatten(chunks[1..]) == chunks[1] + Flatten(chunks[1..][1..]);
      if chunks[1] != [] {
        assert Flatten(chunks)[..|chunks[0]| + 1] == chunks[0] + [chunks[1][0]];
      }
    } else {
      assert Flatten(chunks) == chunks[0] + [];
    }
  }

  /** The chunk is all there is, or one more piece would not fit into it. */
  ghost predicate FillsUp(pieces: seq<Item>, chunk: seq<Item>, fits: Fits) {
    chunk <= pieces && (chunk == pieces || !fits(pieces[..|chunk| + 1]))
  }

  /** It fits, holds the first `size` Memories, the last of them perhaps in part, and no piece more would fit. */
  ghost predicate IsRequest(items: seq<Item>, fits: Fits, request: seq<Item>, size: nat) {
    && fits(request) && Holds(items, request, size)
    && AllPieces(items, fits).Ok? && FillsUp(AllPieces(items, fits).value, request, fits)
  }

  /** Of uncut Memories a request holds the first ones, whole. */
  lemma WholeBeginning(items: seq<Item>, chunk: seq<Item>, size: nat)
    requires Holds(items, chunk, size) && chunk <= items && DistinctKeys(items)
    ensures chunk == items[..size]
  {
    assert chunk == items[..|chunk|];
    if |chunk| < size {
      assert items[..size][|chunk|].key == items[|chunk|].key && Mentions(items[..size], items[|chunk|].key);
    } else if |chunk| > size {
      assert chunk[size].key == items[size].key && Mentions(chunk, items[size].key);
    }
  }

  /**
    Audits the first chunk the packer makes. It holds the first `size` Memories of the backlog, of the last
    one perhaps only a beginning; when every Memory fits a request alone none is cut and nothing is raised.
   */
  method AuditedChunk(items: seq<Item>, fits: Fits) returns (r: Result<seq<Item>, Error>, size: nat)
    requires items != [] && DistinctKeys(items)
    ensures r.Ok? ==> IsRequest(items, fits, r.value, size)
    ensures r.Err? ==> Unpackable(items, fits, r.error)
    ensures EachFitsAlone(items, fits) ==> 0 < size <= |items| && r == Ok(items[..size])
    ensures EachFitsAlone(items, fits) ==> size == |items| || !fits(items[..size + 1])
  {
    var raises := candidate => !fits(candidate);
    assert ChecksExactly(fits, raises);
    var chunks := GreedyChunks(items, fits, raises);
    if EachFitsAlone(items, fits) { WholeItemsAreNotCut(items, fits); }
    if chunks.Err? {
      return Err(chunks.error), 0;
    }
    FirstChunk(items, chunks.value);
    var chunk := chunks.value[0];
    ghost var reach := BeginningHolds(items, chunk);
    assert items[0..] == items;
    ReachedIsSize(items, chunk, reach, 0);
    size := Reached(items, chunk);
    assert chunk[..|chunk|] == chunk;
    if EachFitsAlone(items, fits) { WholeBeginning(items, chunk, size); }
    return Ok(chunk), size;
  }
}

# GossipMemo: verified models of its protocols

GossipMemo keeps a social memory in one SQLite database. A single process writes it, and several slow things
happen around it: model calls behind a one-permit gate, reasoners that read evidence and commit later,
extraction batches, an embedding worker, a plugin that sends a user's message early over an unreliable network.
This project models those protocols in Dafny and proves what they keep over every run.

Code that updates fields or tables step by step is a class whose methods change its fields; each method is
proved equal to a step function on values, and the invariants, run theorems and counterexamples are lemmas
about that function. What a step does is stated a second time, field by field and without the step function:
which rows are added, in which order and with what content, which change, and that no others do. Store
transactions are atomic steps. A model's answer is an arbitrary value of its type, an exception is a `Result`,
time is a counter, and SQLite answers its queries.

| file | what it models |
|---|---|
| `provider_gate.dfy` | the one-permit, three-tier gate, with cancellation split into marking a future and running its handler |
| `chunking.dfy`, `owner_fold.dfy` | budgeted packing, bisection of oversized items, and the fold that packs again when the card grows |
| `card_catchup.dfy` | incremental reads and compare-and-set commits of cards |
| `coverage_request.dfy`, `coverage_cursor.dfy` | what of a backlog one audit request holds, and the cursors of coverage roots |
| `person_merge.dfy` | the relational rewrite of a merge |
| `memory_lifecycle.dfy`, `memory_effects.dfy`, `memory_store.dfy` | the provenance of Memories, inferences and hypotheses, what each operation records and ends, and the store object |
| `extraction_drain.dfy` | message batches, attempts, failures, kills and the drain loop |
| `message_intake.dfy`, `turn_protocol.dfy` | idempotent recording, and the plugin's exactly-once turn protocol |
| `vector_index.dfy`, `vector_search.dfy` | the embeddings table, its sidecar, the worker, and both searches |
| `rank_fusion.dfy`, `alias_match.dfy` | fused recall rankings, and longest-first alias matching |
| `migrations.dfy` | versioned upgrades that may stop after any transaction |
| `context_budget.dfy`, `owner_comparisons.dfy` | the token estimate, the stage-2 check, and bounded comparison state |
| `sorting.dfy`, `wrappers.dfy` | a stable sort and the result types |

## Where the code falls short of what it promises

Each of these is a lemma, and beside each stands the exact condition under which the promise holds.

* The gate can lose its permit for ever: a holder releases after the next waiter was cancelled and before that
  waiter's handler ran (`PermitCanBeLost`; exact condition in `StepConservesPermit` and `PermitConserved`).
* A card can skip evidence when a person with older Memories is merged into its owner while a fold is in flight
  (`MergeDuringFoldLosesEvidence`, reached by the run of `OlderEvidenceCanArrive`; exact condition in `CommitIsComplete`),
  and importing a user card skips whatever about the user was not folded (`ImportSkipsTheSecondMemory`; exact condition
  in `OverwriteIsComplete`).
* A coverage commit skips a Memory that was rewritten during the audit, and the rest of one that was cut for its request
  (`RewriteDuringAuditSkips`, `CutMemoryIsSkipped`; exact condition in `CommitSkipsNothing`).
* A batch created during the drain's last attempt is left behind until the next trigger
  (`BatchCreatedDuringTheLastAttemptStaysBehind`; exact condition in `DrainEnds`).
* A prefetch that claims its slot after the turn was stored duplicates the user's message (`LateRunDuplicates`); the network
  can store a turn twice exactly when two of its keys are at large (`NetworkCanDuplicate`). A slot left behind by an
  unfinished turn swallows the same text said again (`LeftoverRunLosesTheMessage`; exact condition in
  `WriteKeepsTheMessage`). Keys stay exclusive in a run exactly when each of its steps is clean (`CleanRunsAreExclusive`).
* A message whose identity is an empty string, or whose conversation is absent against empty, is refused where the lookup
  finds no duplicate but the index does (`RefusedExactlyWhenMisread`).
* A status-filtered search for one or two results never widens its window of fifty rows
  (`CrowdedOutSearch`, `FilteredWindowMissesAll`; exact condition in `StoreSearchesAgree`).
* A vector written while the sidecar is out of reach stays missing there (`SkippedWriteStaysMissing`), and so does the removal
  of a swept row (`CleanupMirrorsUnlessOrphaned`); runs without either keep the mirror (`SteadyRunsMirror`).
* The comment on bounded comparisons says that the oldest tail is left out; the code passes over whatever does not fit and may
  keep later items (`OmissionIsNotTheTail`; what is left out is a tail exactly under the condition of `TailIsLeftOut`). The
  model follows the code.
* For a legacy database, upgrading through an intermediate program and upgrading at once differ when one of the newer
  program's own upgrades fails (exact condition in `LegacyUpgradesInTwo`), and a refused upgrade keeps what had committed
  before it (exact condition in `RefusalChangesNothing`).

## Model

| member | source | states |
|---|---|---|
| ProviderGates.StepKeepsValid | src/gossipmemo/transport.py:93-135 | every acquire, cancel, resume and release, in any interleaving, keeps the gate's invariant |
| ProviderGates.RunIsSafe | src/gossipmemo/transport.py:93-135 | in every run at most one caller is granted and unreleased, and an unlocked gate has empty queues |
| ProviderGates.StepConservesPermit | src/gossipmemo/transport.py:99-135 | a step keeps a live holder behind a locked gate if and only if it does not free the permit while the next waiter is already cancelled |
| ProviderGates.PermitConserved | src/gossipmemo/transport.py:93-135 | over a whole run the permit survives if and only if no dispatch popped a cancelled waiter |
| ProviderGates.LostIsForever | src/gossipmemo/transport.py:122-135 | once the permit is lost, no continuation ever grants anybody again |
| ProviderGates.PermitCanBeLost | src/gossipmemo/transport.py:99-135 | a concrete six-step run that loses the permit, whatever happens afterwards |
| ProviderGates.GrantIsMostUrgent | src/gossipmemo/transport.py:122-135 | at each grant no more urgent tier has a waiter and nobody of the same tier queued earlier |
| ProviderGates.GrantsAreFifo | src/gossipmemo/transport.py:93-135 | per tier, in every run, the grants are a subsequence of the enqueue order |
| ProviderGates.DispatchHandsOn | src/gossipmemo/transport.py:122-135 | a free gate takes the head of the first waiting tier, most urgent first, and grants it unless it is cancelled; nothing else changes |
| ProviderGates.ResumeWakes | src/gossipmemo/transport.py:99-108 | what a woken task does, case by case, to the gate's fields |
| ProviderGates.ProviderGate.DispatchNext | src/gossipmemo/transport.py:122-135 | the dispatch loop over the tiers pops the most urgent head, locks, and grants only a pending future |
| ProviderGates.ProviderGate.Acquire | src/gossipmemo/transport.py:93-100 | a new caller of a free gate is granted at once, one of a locked gate waits as the last of its tier, and no other call or queue changes |
| ProviderGates.ProviderGate.Release | src/gossipmemo/transport.py:110-114 | the holder leaves, and the permit goes to the head of the most urgent queue, granted unless it is cancelled, or the gate is free when nobody waits |
| ProviderGates.ProviderGate.Resume | src/gossipmemo/transport.py:99-108 | a woken task holds the permit, or hands on one it was granted after a cancellation, or leaves its queue, which is otherwise unchanged |
| ProviderGates.ProviderGate.Cancel | src/gossipmemo/transport.py:99-108 | cancelling marks a pending future at once and a granted one only when its task wakes; nothing else changes |
| Chunking.BisectionFindsLongestPrefix | src/gossipmemo/chunking.py:112-119 | when fitting is prefix-monotone and some prefix fits, the bisection ends at the longest fitting prefix |
| Chunking.SplitOversized | src/gossipmemo/chunking.py:104-125 | an item that fits is returned whole; one that does not is refused exactly when it has no characters, and otherwise cut into pieces of one length, all its characters in order, where a prefix of that length fits (or it is 1) and one character more does not (or it is the whole) |
| Chunking.CutKeepsEvidence | src/gossipmemo/chunking.py:122-125 | the pieces of a cut item hold its characters, in order, and nothing else |
| Chunking.CutsInPieces | src/gossipmemo/chunking.py:122-125 | every piece but the last has exactly the cut length, and all are in order |
| Chunking.EvidenceDetermines | src/gossipmemo/chunking.py:104-125 | pieces put back together are the original items, when neighbours have distinct ids |
| Chunking.GreedyChunks | src/gossipmemo/chunking.py:74-101 | what is returned is non-empty chunks that rejoin to the pieces of all items in order, each checked as it grew and each closed only when the next piece did not fit; when stretches of fitting chunks fit, no packing of the same pieces has fewer; it is refused only for an item that cannot be split or a piece that does not fit alone, and an item that cannot be split always refuses it |
| Chunking.GreedyStaysAhead | src/gossipmemo/chunking.py:91-101 | greedy never closes a chunk before any other packing of the same pieces does |
| Chunking.GreedyIsOptimal | src/gossipmemo/chunking.py:74-101 | when stretches of fitting chunks fit, no packing of the same pieces into consecutive fitting chunks is shorter |
| OwnerFold.SplitFor | src/gossipmemo/reasoners/owner.py:121-126 | a split holds the batch's evidence, every piece fits beside the card and is closed only when the next does not; otherwise an item or piece of the batch does not fit |
| OwnerFold.Repack | src/gossipmemo/reasoners/owner.py:136-143 | packing a batch again keeps the pending weight and evidence and puts at least two fitting batches in its place; it is refused only when the batch cannot be packed or stays whole |
| OwnerFold.FoldAll | src/gossipmemo/reasoners/owner.py:130-169 | the loop over the pending batches, packing again where a card outgrew one |
| OwnerFold.OwnerReasoning | src/gossipmemo/reasoners/owner.py:128-169 | for arbitrary card growth and model replies the fold ends; on success every Memory was folded once, in order, each batch beside a card it fitted, as it was packed first unless a card outgrew a batch, with all actions in order and no more batches than the input weighs; it fails only with the model, or at a batch of the remaining evidence that cannot be packed beside the present card |
| CardCatchup.StepKeeps | src/gossipmemo/store/_reasoning.py:352-403 | reads, writes, merges and commits keep the bookkeeping sound, and undisturbed ones keep every card complete |
| CardCatchup.RunLosesNothing | src/gossipmemo/store/_reasoning.py:361-403 | for any interleaving of writers and folds, every Memory at or below a card's watermark was folded in its current version, as long as no merge or import disturbs a commit |
| CardCatchup.CommitIsComplete | src/gossipmemo/store/_reasoning.py:361-403 | a passing commit leaves its card complete if and only if no unfolded Memory was linked after the read |
| CardCatchup.UnmergedHasNoLateLinks | src/gossipmemo/store/_reasoning.py:361-403 | without a merge into its owner since the read, no unfolded Memory was linked late, so the commit is complete |
| CardCatchup.MergeDuringFoldLosesEvidence | src/gossipmemo/store/_people.py:397-501 | a merge of older evidence during a fold passes the commit check and the evidence is never folded |
| CardCatchup.OlderEvidenceCanArrive | src/gossipmemo/store/_people.py:397-501 | a run from the empty store in which that happens and a card ends incomplete |
| CardCatchup.OverwriteIsComplete | src/gossipmemo/store/_reasoning.py:536-546 | importing a user card leaves it complete if and only if every Memory about the user was folded in its present version |
| CardCatchup.OverwriteSkipsEvidence | src/gossipmemo/store/_reasoning.py:536-546 | one unfolded Memory about the user is enough for an import to skip it, however much was folded before |
| CardCatchup.ImportSkipsTheSecondMemory | src/gossipmemo/store/_reasoning.py:536-546 | a run from the empty store in which one Memory is folded and the next one is skipped by an import |
| CardCatchup.StalenessTestsAgree | src/gossipmemo/store/policy.py:125-133 | the scan's "older than" and the view's "different from" name the same people whenever no card is newer than its evidence |
| CardCatchup.RunStaysDated | src/gossipmemo/store/policy.py:125-133 | that is so after every run, with merges and imports too, so the two tests never disagree |
| CardCatchup.AttemptSettles | src/gossipmemo/reasoners/person.py:90-131 | without other writers an attempt commits and takes exactly its person off the stale list |
| CardCatchup.EmptyStoreIsSound | src/gossipmemo/store/_reasoning.py:352-403 | every run may start from an empty store |
| CardCatchup.SnapshotIs | src/gossipmemo/store/_people.py:132-168 | a read holds exactly the present versions of the evidence past the watermark, and the newest stamp |
| CardCatchup.CommitCommits | src/gossipmemo/store/_reasoning.py:352-403 | what a commit changes, field by field, exactly when the newest stamp is the one read and the card is behind it; otherwise nothing |
| CardCatchup.CardStore.ReadContext | src/gossipmemo/store/_people.py:132-168 | the read returns all evidence past the card's watermark, withdrawn rows included, in its present versions and nothing else, and the newest stamp of the evidence |
| CardCatchup.CardStore.ApplyPersonReasoning | src/gossipmemo/store/_reasoning.py:352-403 | it commits exactly when the evidence's newest stamp is the one that was read and the card is behind it; then the person's named active inferences are retracted, the new ones added, the card is at the newest stamp, its delta is folded and no other card moves; otherwise nothing changes |
| CardCatchup.CardStore.StaleTargets | src/gossipmemo/store/_reasoning.py:548-576 | the scan lists exactly the people whose card is absent or older than their newest evidence, each once |
| CardCatchup.CardStore.Attempt | src/gossipmemo/reasoners/person.py:90-131 | an attempt settles a listed person, never takes the skip, and asks to be called again exactly while somebody is stale |
| CardCatchup.CardStore.RunUntilCaughtUp | src/gossipmemo/reasoners/base.py:51-106 | the loop ends with no stale person and all cards sound, whatever the model replies and however sound the cards were before |
| CoverageCursor.BacklogIsExact | src/gossipmemo/store/_coverage.py:53-78 | the read returns exactly the rows past the cursor, each once, in (stamp, id) order |
| CoverageCursor.CommitSkipsNothing | src/gossipmemo/store/_coverage.py:91-138 | a passing commit skips nothing if and only if its chunk was whole and is unchanged since the read |
| CoverageCursor.RunSkipsNothing | src/gossipmemo/store/_coverage.py:80-138 | in clean runs every Memory at or before a root's cursor was audited under that root |
| CoverageCursor.SeededRunsSkipNothing | src/gossipmemo/store/_coverage.py:80-138 | so in every clean run of a space with seeded roots |
| CoverageCursor.LostCommitChangesNothing | src/gossipmemo/store/_coverage.py:91-97 | a lost compare-and-set commits nothing |
| CoverageCursor.CommitAdvances | src/gossipmemo/store/_coverage.py:126-138 | the committed cursor is the greatest present key of the chunk, and its whole Memories are audited |
| CoverageCursor.RewriteDuringAuditSkips | src/gossipmemo/store/_coverage.py:126-137 | a run of a seeded space in which a rewrite during the audit takes the cursor past a Memory that nobody read |
| CoverageCursor.CutMemoryIsSkipped | src/gossipmemo/reasoners/coverage.py:109-155 | a run of a seeded space in which a cut Memory is not stale any more although its rest was never read |
| CoverageRequests.WholeItemsAreNotCut | src/gossipmemo/reasoners/coverage.py:103-115 | when each Memory fits alone the packer cuts none |
| CoverageRequests.BeginningHolds | src/gossipmemo/reasoners/coverage.py:109-118 | a chunk whose evidence is a beginning of the backlog's mentions exactly the first Memories, of the last one perhaps a part |
| CoverageRequests.AuditedChunk | src/gossipmemo/reasoners/coverage.py:103-118 | the audited chunk fits, with the next piece it would not, and it holds exactly the first Memories of the backlog, as many as it says, of the last one perhaps a part; if each fits alone it holds them whole and nothing is raised |
| CoverageCursor.CommitShrinks | src/gossipmemo/store/_coverage.py:126-137 | a passing commit of unchanged Memories shrinks the summed backlog, whether one was cut or not |
| CoverageCursor.AttemptProgresses | src/gossipmemo/reasoners/coverage.py:131-155 | without other writers every attempt commits and shrinks the summed backlog, and one that cut nothing skips nothing |
| CoverageCursor.CoverageStore.CoverageContext | src/gossipmemo/store/_coverage.py:41-78 | the first root that is behind, in order, with the first 400 of its backlog, or all if there are fewer; none exactly when no root is |
| CoverageCursor.CoverageStore.ApplyCoverageAudit | src/gossipmemo/store/_coverage.py:80-138 | exactly when the cursor is the one that was read, that root's cursor moves to the latest audited key and its whole Memories count as audited; otherwise nothing changes |
| CoverageCursor.CoverageStore.AttemptAudit | src/gossipmemo/reasoners/coverage.py:103-155 | packs, audits and commits one request, into which the next piece of the backlog would not fit: the cursor is at the last Memory it reached, and what it held whole is audited; or it raises because a Memory cannot be packed, and changes nothing; never when each fits alone |
| CoverageCursor.CoverageStore.RunUntilCaughtUp | src/gossipmemo/store/_coverage.py:243-256 | for any contents and budgets the always-continue loop ends, without an error exactly when the space is no longer stale; when each Memory fits alone there is no error and nothing is skipped |
| PersonMerge.MergeForgetsSource | src/gossipmemo/store/_people.py:380-466 | no alias, link or relationship names the source, the Memory links and aliases of everybody else stay, and the source's are the target's |
| PersonMerge.MergeLeavesPeople | src/gossipmemo/store/_people.py:492-501 | the source points at the target, the target's card is cleared, and no other person changes |
| PersonMerge.MergeClearsCards | src/gossipmemo/store/_people.py:412-490 | a relationship's card is cleared exactly when it now joins the target with somebody whom a relationship joined with the source, and relationships without the source keep their endpoints |
| PersonMerge.MergeRelatesImages | src/gossipmemo/store/_people.py:412-466 | two people are related after the merge if and only if people they stand for were, the pair of source and target excepted |
| PersonMerge.MergeLinksImages | src/gossipmemo/store/_people.py:412-466 | a Memory's relationship links become their images, role by role |
| PersonMerge.MergeKeepsRelationships | src/gossipmemo/store/_people.py:412-474 | relationships keep two distinct active endpoints in order, with unique pairs |
| PersonMerge.MergeKeepsValid | src/gossipmemo/store/_people.py:343-507 | a merge keeps the tables' invariant |
| PersonMerge.MergeRenamesRoots | src/gossipmemo/store/_people.py:492-501 | the person at the end of every merged-into chain is renamed like every link |
| PersonMerge.NoPointerCycle | src/gossipmemo/store/_people.py:365-378 | merged-into pointers have no cycle |
| PersonMerge.EnsureKeepsValid | src/gossipmemo/store/_people.py:87-130 | creating a relationship on demand keeps the invariant and every relationship there is, and adds one only when the two are not related |
| PersonMerge.RunKeepsValid | src/gossipmemo/store/_people.py:343-507 | in every run pointers end at active people and relationships stay valid |
| PersonMerge.RewriteRowLinks | src/gossipmemo/store/_people.py:418-466 | one turn of the relationship loop moves the row's links to its successor or removes them |
| PersonMerge.PeopleStore.MoveAliases | src/gossipmemo/store/_people.py:381-401 | the alias loop ends with the source's aliases on the target |
| PersonMerge.PeopleStore.MoveLinks | src/gossipmemo/store/_people.py:403-410 | the Memory links of the source become the target's |
| PersonMerge.PeopleStore.RewriteRelationship | src/gossipmemo/store/_people.py:418-466 | one relationship row is removed, joined with an existing one, or pointed at the target |
| PersonMerge.PeopleStore.MergePerson | src/gossipmemo/store/_people.py:343-507 | the loops compute the merged tables and the affected relationships: the source points at the target and keeps its card, the target's card is cleared, nobody else changes; or the error says why and nothing changes |
| PersonMerge.PeopleStore.MergeTwice | src/gossipmemo/store/_people.py:365-372 | repeating a merge succeeds and changes nothing |
| MemoryLifecycle.StepKeeps | src/gossipmemo/store/_reasoning.py:72-317 | every operation keeps provenance and lets no row return to an earlier state, and only merges move owners |
| MemoryLifecycle.RunKeepsProvenance | src/gossipmemo/store/_reasoning.py:72-317 | in every run, merges of people included, derivations go from inferences to non-inferences, reasoner inferences have a source, hypotheses have only non-inferred evidence and are promoted exactly with a promoted Memory, and what left active stays out; without merges owners stay |
| MemoryLifecycle.SupersessionIsAcyclic | src/gossipmemo/store/_memories.py:310-369 | following supersession links always leads to older Memories |
| MemoryLifecycle.RunKeepsReplacements | src/gossipmemo/store/_memories.py:310-369 | in every run a superseded Memory has a replacement, and a replaced one is no longer active |
| MemoryLifecycle.InferencesTouch | src/gossipmemo/store/_reasoning.py:166-210 | a reasoner adds only inferences of its owner and retracts only that owner's shown active ones; evidence is out of its reach |
| MemoryLifecycle.HypothesesTouch | src/gossipmemo/store/_reasoning.py:212-317 | hypothesis actions change only open hypotheses of their owner, end only shown ones, and touch no Memory |
| MemoryLifecycle.ExtractionTouches | src/gossipmemo/store/_messages.py:546-676 | extraction supersedes none but the active evidence it was shown |
| MemoryLifecycle.InferKeeps | src/gossipmemo/store/_reasoning.py:102-164 | reconciling any list of inferences keeps provenance |
| MemoryLifecycle.ClaimKeeps | src/gossipmemo/store/_reasoning.py:221-276 | applying any list of hypothesis claims keeps provenance |
| MemoryLifecycle.TransitionKeeps | src/gossipmemo/store/_reasoning.py:277-317 | applying any list of transitions keeps promotion and provenance |
| MemoryLifecycle.ExtractKeeps | src/gossipmemo/store/_messages.py:546-676 | applying any extraction result keeps provenance |
| MemoryEffects.SupersedingCorrects | src/gossipmemo/store/_memories.py:310-369 | a correction adds one active human Memory with the original's owners, the user in or out as asked, and ends the original |
| MemoryEffects.ExtractionRecords | src/gossipmemo/store/_messages.py:546-676 | an extraction adds exactly one row for each candidate that repeats nothing, in order and as the candidate says, and ends exactly the rows those supersede |
| MemoryEffects.SourcesAre | src/gossipmemo/store/_reasoning.py:319-350 | an owner's sources are the active non-inferred Memories about it, for a relationship also those about both of its people |
| MemoryEffects.InferencesReconcile | src/gossipmemo/store/_reasoning.py:102-164 | what reconciling does to the rows and derivations, item by item, against the first known inference that is repeated |
| MemoryEffects.RetractionsRetract | src/gossipmemo/store/_reasoning.py:166-210 | exactly the named, shown, active inferences of the owner are retracted |
| MemoryEffects.ClaimsAreClaimed | src/gossipmemo/store/_reasoning.py:221-276 | what each claim does to the hypotheses and their evidence |
| MemoryEffects.TransitionsEnd | src/gossipmemo/store/_reasoning.py:277-317 | what each transition ends, and that it changes no other hypothesis |
| MemoryStores.MemoryStore.AddManualMemory | src/gossipmemo/store/_memories.py:270-308 | one active human Memory with these owners is added at the end and nothing else changes |
| MemoryStores.MemoryStore.SupersedeMemory | src/gossipmemo/store/_memories.py:310-369 | an active Memory ends superseded by a replacement with its owners, the user added or removed as asked; nothing else changes |
| MemoryStores.MemoryStore.RetractMemory | src/gossipmemo/store/_memories.py:371-392 | a known Memory is retracted, idempotently, and no other changes |
| MemoryStores.MemoryStore.ApplyExtraction | src/gossipmemo/store/_messages.py:546-676 | the loop adds one active row for each candidate that repeats nothing, in order, with its owners and kind, superseding the row it names exactly if that was shown and active evidence as the batch began; those rows end superseded and no other changes |
| MemoryStores.MemoryStore.ReconcileInferredMemories | src/gossipmemo/store/_reasoning.py:72-164 | item by item: without a valid source nothing changes, a repeated inference gains exactly its valid sources, a new one is added for its owner with them |
| MemoryStores.MemoryStore.ApplyInferredMemoryActions | src/gossipmemo/store/_reasoning.py:166-210 | inferences are reconciled with the owner's sources, which for a relationship include Memories linked to both of its people; then exactly the named, shown, active inferences of the owner are retracted |
| MemoryStores.MemoryStore.ApplyClaims | src/gossipmemo/store/_reasoning.py:221-276 | claim by claim: without valid evidence nothing changes; the named or first equally worded open hypothesis takes the wording and the evidence, or an open one is added with them |
| MemoryStores.MemoryStore.ApplyHypothesisActions | src/gossipmemo/store/_reasoning.py:212-317 | claims supported by the owner's sources, then transitions, which end exactly the shown open hypotheses whose promotion, if any, names an active Memory of the owner |
| ExtractionDrain.RunKeepsValid | src/gossipmemo/store/_messages.py:147-450 | in every run a message keeps its batch, a batch's messages share attempts and state, completion is final and at most five failures are recorded |
| ExtractionDrain.OnlyOutcomesRetire | src/gossipmemo/reasoners/extraction.py:39-52 | a batch stops being eligible only by completion or by a failure recorded at five attempts or more |
| ExtractionDrain.KilledAttemptStaysEligible | src/gossipmemo/reasoners/extraction.py:39-52 | a killed attempt never retires a batch, however often it happens |
| ExtractionDrain.AttemptOutcome | src/gossipmemo/reasoners/extraction.py:203-277 | after an attempt the eligible batches are the others, those created meanwhile, and the attempted one if it failed with attempts left |
| ExtractionDrain.AttemptUsesUpWork | src/gossipmemo/reasoners/extraction.py:203-277 | an attempt without new batches strictly lowers the summed attempts left |
| ExtractionDrain.DrainEnds | src/gossipmemo/reasoners/extraction.py:211-217 | after the last attempt only the failed batch is eligible if and only if no batch was created during it |
| ExtractionDrain.BatchCreatedDuringTheLastAttemptStaysBehind | src/gossipmemo/world.py:267-307 | a concrete run that leaves a batch behind |
| ExtractionDrain.BatchingTakesTheOldest | src/gossipmemo/store/_messages.py:147-186 | batching the oldest messages leaves the others waiting in order |
| ExtractionDrain.OldestFirst | src/gossipmemo/store/_messages.py:147-186 | the waiting messages are exactly the unbatched unfinished ones, in the order of arrival |
| ExtractionDrain.AddRowKeepsOrder | src/gossipmemo/store/_messages.py:693-726 | one turn of the grouping loop keeps the groups in the order of fewest attempts and then arrival |
| ExtractionDrain.EligibleGroups | src/gossipmemo/reasoners/extraction.py:203-213 | the worker's list names the eligible batches, each once |
| ExtractionDrain.FirstEligibleIsNeediest | src/gossipmemo/store/_messages.py:693-726 | the first listed batch has had the fewest attempts |
| ExtractionDrain.ExtractionStore.CreateExtractionBatch | src/gossipmemo/store/_messages.py:147-175 | only unbatched, unfinished messages are taken, and without any there is no batch |
| ExtractionDrain.ExtractionStore.MarkExtractionAttempt | src/gossipmemo/store/_messages.py:428-439 | unfinished messages of the batch count one more attempt and are pending again, and no other message changes |
| ExtractionDrain.ExtractionStore.FailExtraction | src/gossipmemo/store/_messages.py:441-450 | unfinished messages of the batch are failed, with their attempts as they were, and no other message changes |
| ExtractionDrain.ExtractionStore.ApplyExtraction | src/gossipmemo/store/_messages.py:678-690 | the batch's messages are completed, and no other message changes |
| ExtractionDrain.ExtractionStore.PendingExtractions | src/gossipmemo/store/_messages.py:693-726 | the grouping loop yields one group per batch covering all unfinished messages, in the order of fewest attempts and then arrival, within groups and between their firsts |
| ExtractionDrain.ExtractionStore.Attempt | src/gossipmemo/reasoners/extraction.py:203-277 | one attempt on a neediest eligible batch, reporting whether there were others before it |
| ExtractionDrain.ExtractionStore.RunUntilCaughtUp | src/gossipmemo/reasoners/base.py:51-55 | the drain ends, within the summed attempts left when no batch arrives, and what stays eligible is exactly known |
| ExtractionDrain.ExtractionStore.DrainExtractionBatches | src/gossipmemo/world.py:446-466 | full batches are formed from the waiting messages in the order of arrival until fewer than a batch wait, each under the next number, and no other message changes |
| MessageIntake.RecordingKeepsUnique | src/gossipmemo/store/_messages.py:56-145 | recording only adds rows, keeps both unique identities and answers every message with a row that is it or shares its identity |
| MessageIntake.RedeliveryAddsNothing | src/gossipmemo/store/_messages.py:62-144 | a batch delivered again, at any later time, adds nothing if and only if every message has an identity |
| MessageIntake.RefusedExactlyWhenMisread | src/gossipmemo/store/_messages.py:91-144 | a message is refused exactly when no lookup finds it and a row shares its empty identity, or its place with an absent conversation against an empty one |
| MessageIntake.ProperIsRecorded | src/gossipmemo/store/_messages.py:62-144 | without empty identity strings every batch is recorded |
| MessageIntake.BatchIsRecorded | src/gossipmemo/store/_messages.py:56-145 | message by message: the row of its key, else of its place, else the message itself appended, unless a row has its empty key or item, or its place with an absent conversation against an empty one |
| MessageIntake.MessageStore.RecordMessages | src/gossipmemo/store/_messages.py:56-145 | the whole batch is recorded in one transaction: message by message, the row of its key answers for it, else the row of its place, else it is appended as it is; or, when one is refused, nothing is recorded |
| TurnProtocol.RunKeepsValid | integrations/hermes/gossipmemo/__init__.py:609-668 | in every run a slot marked persisted has its message on the server |
| TurnProtocol.CleanStepsKeepExclusive | integrations/hermes/gossipmemo/__init__.py:554-625 | a step keeps one key per turn and one turn per key if and only if it claims or releases a slot cleanly |
| TurnProtocol.CleanRunsAreExclusive | integrations/hermes/gossipmemo/__init__.py:554-625 | over a whole run keys stay exclusive if and only if every step is clean |
| TurnProtocol.CleanRunsAreExactlyOnce | integrations/hermes/gossipmemo/__init__.py:514-581 | in clean runs each turn has at most one user row, and once its queued write arrived exactly one user row with its text and exactly one assistant row with the reply it was given, both in its conversation |
| TurnProtocol.DisciplinedRunsAreClean | integrations/hermes/gossipmemo/__init__.py:609-636 | serial turns whose prefetch claims its slot before the turn ends are clean, whatever the network does |
| TurnProtocol.DisciplinedRunsAreExactlyOnce | integrations/hermes/gossipmemo/__init__.py:514-668 | in every disciplined run from an empty start no turn is stored twice, and each whose write arrived is stored exactly once, its text and the reply it was given |
| TurnProtocol.RepliesAreGiven | integrations/hermes/gossipmemo/__init__.py:536-581 | the reply recorded for a turn is the one some end of that turn was given |
| TurnProtocol.StoresWhatIsQueued | integrations/hermes/gossipmemo/__init__.py:504-534 | a write that arrives appends exactly the queued reply, after the user's message if that is there and no row has its key |
| TurnProtocol.NetworkCanDuplicate | integrations/hermes/gossipmemo/__init__.py:514-668 | some delivery of what is under way stores a turn twice if and only if two keys of one turn are stored, or not yet stored but requested or queued |
| TurnProtocol.WriteKeepsTheMessage | integrations/hermes/gossipmemo/__init__.py:546-574 | a queued write that arrives leaves its turn with a user row if and only if it had one or the write carries its message under a key no row has |
| TurnProtocol.LateClaimDuplicates | integrations/hermes/gossipmemo/__init__.py:609-651 | a prefetch that claims its slot after the turn was stored duplicates the user's message |
| TurnProtocol.LateRunDuplicates | integrations/hermes/gossipmemo/__init__.py:609-651 | a run from the empty state that does so |
| TurnProtocol.LeftoverSlotLosesTheMessage | integrations/hermes/gossipmemo/__init__.py:546-574 | a slot left by another turn with the same text makes this turn's message disappear |
| TurnProtocol.LeftoverRunLosesTheMessage | integrations/hermes/gossipmemo/__init__.py:546-574 | a run from the empty state that does so, with the second turn written and its message nowhere |
| TurnProtocol.Provider.TurnContext | integrations/hermes/gossipmemo/__init__.py:613-651 | one prefetch thread claims the conversation's slot and sends the turn's text under the slot's key, or changes nothing |
| TurnProtocol.Provider.AnswerArrives | integrations/hermes/gossipmemo/__init__.py:656-666 | an answer with message ids marks exactly the slots of that key persisted |
| TurnProtocol.Provider.SyncTurn | integrations/hermes/gossipmemo/__init__.py:536-581 | the slot is released and one write is queued: the reply in the turn's conversation, after the user's text under the slot's key unless that is known to be stored; a turn without text or reply queues nothing |
| TurnProtocol.Provider.WriteNext | integrations/hermes/gossipmemo/__init__.py:514-534 | the oldest queued write is dropped, or its reply is appended, after the user's message if that is there and no row has its key |
| VectorIndex.UpsertMirrors | src/gossipmemo/store/_vectors.py:279-341 | while vectors are available, an upsert keeps the sidecar equal to the main table |
| VectorIndex.EnsureMirrors | src/gossipmemo/store/_vectors.py:220-277 | maintenance yields a mirror if and only if a sidecar that claims to be current already is one |
| VectorIndex.SteadyRunsMirror | src/gossipmemo/store/_vectors.py:220-421 | in every run of owners, rewrites, upserts, rebuilds and sweeps with vectors available, one model and dimension, and no indexed owner deleted, a sidecar that claims to be current is the mirror of the main table, and maintenance makes it one |
| VectorIndex.SkippedWriteStaysMissing | src/gossipmemo/store/_vectors.py:313-319 | a write that skipped the sidecar is repaired by maintenance only if it changed nothing |
| VectorIndex.CleanupMirrorsUnlessOrphaned | src/gossipmemo/store/_vectors.py:410-421 | sweeping keeps the mirror if and only if no indexed owner is gone |
| VectorIndex.NotPendingIsCurrent | src/gossipmemo/store/_vectors.py:345-380 | in every run an owner that is not pending has a vector of its present text under that model and dimension |
| VectorIndex.StoredAreNotPending | src/gossipmemo/store/_vectors.py:289-311 | storing vectors of present texts takes exactly their owners off the pending list |
| VectorIndex.WritesLast | src/gossipmemo/store/_vectors.py:289-311 | of several items for one owner the last one is the row, and rows of other owners stay |
| VectorIndex.IndexesLast | src/gossipmemo/store/_vectors.py:320-341 | the same for the sidecar, where an entry that was there keeps its space |
| VectorIndex.VectorStore.EnsureVectorIndex | src/gossipmemo/store/_vectors.py:220-277 | the sidecar is rebuilt exactly when its model, dimension or layout version 2 disagrees, and then has exactly the main table's rows of that model and dimension, field by field |
| VectorIndex.VectorStore.UpsertEmbeddings | src/gossipmemo/store/_vectors.py:279-341 | each owner's last item is its row in the main table, and in the sidecar when that is reachable and current, where a row that was there keeps its space; no other row changes, and the mirror is kept |
| VectorIndex.VectorStore.PendingEmbeddings | src/gossipmemo/store/_vectors.py:345-380 | rows whose owner is gone are removed and no others, and the list holds exactly the owners without a vector of their present text, model and dimension, each once |
| VectorIndex.VectorStore.ProcessEmbeddingBatch | src/gossipmemo/world.py:629-653 | a batch takes 48 owners off the pending ones, or all of them if there are fewer |
| VectorIndex.VectorStore.EmbeddingLoop | src/gossipmemo/world.py:606-627 | when every call is answered the worker ends with nothing pending, and the sidecar still mirrors the main table if it did |
| VectorSearch.CosineIsDot | src/gossipmemo/store/_vectors.py:110-114 | the distance conversion gives the dot product, exactly when the squared norms add up to two, so for unit vectors |
| VectorSearch.KeptSort | src/gossipmemo/store/_vectors.py:492-518 | filtering by status commutes with sorting by distance |
| VectorSearch.ScanIsTopK | src/gossipmemo/store/_vectors.py:540-566 | the plain scan returns a best-k list of the rows that pass |
| VectorSearch.SidecarIsTopK | src/gossipmemo/store/_vectors.py:448-490 | the filtered index search is a best-k list if and only if its last window held enough matches |
| VectorSearch.TopKSameScores | src/gossipmemo/store/_vectors.py:448-566 | two best-k lists have the same score at every place |
| VectorSearch.StoreSearchesAgree | src/gossipmemo/store/_vectors.py:423-566 | in a mirrored store both searches give distinct matches with their dot products, best first, the scan's being the best there are; they give equal scores at every place if and only if enough was fetched, and always without a status filter |
| VectorSearch.SteadySearchesAgree | src/gossipmemo/store/_vectors.py:220-566 | so in every steady run with normalized vectors, after maintenance has seen to the sidecar |
| VectorSearch.WholeIndexIsEnough | src/gossipmemo/store/_vectors.py:467-490 | a window that is not smaller than the index is enough |
| VectorSearch.SmallSearchesNeverWiden | src/gossipmemo/store/_vectors.py:467-489 | for one or two results the single escalation never widens the window |
| VectorSearch.WindowIs | src/gossipmemo/store/_vectors.py:448-490 | the window is k rows without a filter, otherwise five times k and at least fifty, and twenty times k exactly when k is at least 3, the index fills the first window and fewer than k of its rows match |
| VectorSearch.FilteredWindowMissesAll | src/gossipmemo/store/_vectors.py:467-490 | when nothing in the last window passes, existing matches are missed |
| VectorSearch.CrowdedOutSearch | src/gossipmemo/store/_vectors.py:467-490 | a concrete store of 51 rows in which a search for one active row finds none |
| RankFusion.FusedIsSorted | src/gossipmemo/store/policy.py:98-122 | the result holds every ranked id once, best score first, and equal scores in the order in which the rankings show them first |
| RankFusion.LoneRankingUnchanged | src/gossipmemo/store/policy.py:113-122 | one duplicate-free ranking fused with empty ones is returned unchanged |
| RankFusion.DominantStaysAhead | src/gossipmemo/store/policy.py:113-122 | an id ahead of another in every ranking that holds the other stays ahead |
| RankFusion.BothOutranksOne | src/gossipmemo/store/policy.py:113-122 | with no more entries than the damping constant, an id in both of two rankings outranks any id in one |
| RankFusion.OneEntryMoreLoses | src/gossipmemo/store/policy.py:113-122 | with one entry more it may tie and lose to what was seen first |
| RankFusion.WithinKeepsOrder | src/gossipmemo/store/_memories.py:263-267 | hits in scope keep their order |
| RankFusion.FusionRecalls | src/gossipmemo/store/_memories.py:240-268 | the fused answer holds the candidates of both kinds, those found both ways first, the others in the order of their list |
| RankFusion.HitsInOrder | src/gossipmemo/store/_memories.py:263-268 | without text candidates the hits in scope come out in their order |
| RankFusion.ReciprocalRankFusion | src/gossipmemo/store/policy.py:98-122 | the nested loops compute the fused list |
| RankFusion.RecallMemories | src/gossipmemo/store/_memories.py:225-268 | without a query vector the first text matches up to the limit; with one, exactly the candidates of both kinds in scope, up to the limit: ids found both ways before ids found one way, and those found one way in the order of their list |
| AliasMatch.CandidatesAre | src/gossipmemo/store/_people.py:311-325 | the candidates are the places of aliases that exactly one active person has, and all of them |
| AliasMatch.SelectionIsMaximal | src/gossipmemo/store/_people.py:326-333 | no place of the text lies in two chosen matches, and every candidate left out shares a place with a choice at least as long |
| AliasMatch.OverlapSharesAPlace | src/gossipmemo/store/_people.py:328-333 | two matches overlap if and only if some place of the text lies in both |
| AliasMatch.ChosenIsAnswer | src/gossipmemo/store/_people.py:301-333 | the chosen matches are unambiguous, share no place, leave out only what shares one with a match at least as long, and stand in the order of the text |
| AliasMatch.SelectionIsUnique | src/gossipmemo/store/_people.py:326-333 | any longest-first packing of the candidates is the selection |
| AliasMatch.PeopleInOrder | src/gossipmemo/store/_people.py:334-341 | people come out in the order of their first chosen places |
| AliasMatch.GroupByAlias | src/gossipmemo/store/_people.py:305-314 | the grouping loop maps every alias to exactly the people who have it |
| AliasMatch.CollectCandidates | src/gossipmemo/store/_people.py:316-325 | the candidate loop drops empty and ambiguous aliases |
| AliasMatch.SelectLongest | src/gossipmemo/store/_people.py:326-333 | the selection loop over the sorted candidates |
| AliasMatch.MatchPeople | src/gossipmemo/store/_people.py:301-341 | exactly the people of the chosen matches, each once, in the order of their first match; each match is a place of an alias that only one active person has, no place of the text lies in two, and each one left out shares a place with one at least as long |
| Migrations.EveryStopIsTrusted | src/gossipmemo/migrations.py:357-502 | wherever a run stops, the history validates, and a finished run is at the program's version |
| Migrations.RunResumes | src/gossipmemo/migrations.py:357-502 | a run cut short anywhere, then a full one, ends like a full one |
| Migrations.CrashesDoNotMatter | src/gossipmemo/migrations.py:357-502 | any number of interrupted runs leave the outcome of the uninterrupted run |
| Migrations.DoneIsDone | src/gossipmemo/migrations.py:428-432 | a further run on a migrated database is a no-op |
| Migrations.RefusalChangesNothing | src/gossipmemo/migrations.py:291-334 | a refused database is unchanged if and only if the first pending upgrade did not commit before the refusal, which is then a failed upgrade |
| Migrations.PendingIsChain | src/gossipmemo/migrations.py:357-380 | a finished run has applied every upgrade in order and appended exactly its rows |
| Migrations.PendingApplies | src/gossipmemo/migrations.py:357-380 | a run applies the program's upgrades from its version on, each to the schema before it, appends exactly their rows, and ends for the reason that holds there |
| Migrations.TrustedIsJudged | src/gossipmemo/migrations.py:291-334 | a history is trusted, or refused for its first fault in the order of the checks |
| Migrations.LegacyIsAllOrNothing | src/gossipmemo/migrations.py:437-467 | a legacy database gets its baseline row, every upgrade and every row in one transaction, or stays as it is |
| Migrations.HistoryAcrossVersions | src/gossipmemo/migrations.py:291-334 | an older and an extended program trust the same histories, but for those newer than the older program |
| Migrations.StampedUpgradesInTwo | src/gossipmemo/migrations.py:428-435 | for a stamped database, going through the older program ends where the newer one alone does |
| Migrations.LegacyUpgradesInTwo | src/gossipmemo/migrations.py:437-467 | for a legacy database it does so if and only if the newer program's own upgrades take the schema the older program makes |
| Migrations.DatabaseFile.ValidateHistory | src/gossipmemo/migrations.py:291-334 | a history is accepted at its last version exactly when its versions are consecutive, a marker stands at most first, each row is the program's and none is newer; otherwise the first reason, in that order, is reported |
| Migrations.DatabaseFile.ApplyPendingMigrations | src/gossipmemo/migrations.py:357-380 | one transaction per version: each schema is the upgrade of the one before, each row appended is the program's for that version, and it stops at the first failure |
| Migrations.DatabaseFile.MigrateDatabase | src/gossipmemo/migrations.py:383-502 | detection and upgrade, with the baseline marker for a legacy database, the fresh one for an empty and the adopted one for a current one; the later outcome is changed by no interruption |
| ContextBudgets.EstimateIsMonotone | src/gossipmemo/context_budget.py:40-50 | more bytes never cost fewer tokens |
| ContextBudgets.MoreBytesAddAtMost | src/gossipmemo/context_budget.py:40-44 | some more bytes add their own rounded-up estimate, or one token less |
| ContextBudgets.MakeBudget | src/gossipmemo/context_budget.py:24-38 | a budget is accepted exactly when its parts are in range and something is usable; the error says which failed |
| ContextBudgets.Stage2IsSound | src/gossipmemo/reasoners/owner.py:222-252 | when the stage-2 check passes and the first completion stays within the reserve, both requests pass the hard check |
| ContextBudgets.ReserveIsNeeded | src/gossipmemo/llm.py:188-191 | a plan that just fits passes the hard check if and only if the completion is within the reserve and what the plan was rounded up by; two tokens over the reserve never are |
| OwnerComparisons.IdsComeBeforeProse | src/gossipmemo/reasoners/owner.py:291-300 | all ids are kept if and only if all of them fit without wording, when longer prompts do not cost less |
| OwnerComparisons.OmissionIsNotTheTail | src/gossipmemo/reasoners/owner.py:261-300 | an id that does not fit is passed over and a later one is kept, so that no tail is what is left out |
| OwnerComparisons.TailIsLeftOut | src/gossipmemo/reasoners/owner.py:291-300 | for either list, what is left out is the tail from a place on if and only if everything before it fits one by one and nothing from it on fits after that |
| OwnerComparisons.TailAfterKept | src/gossipmemo/reasoners/owner.py:291-300 | after a beginning that was kept whole the rest is left out if and only if each later item is over the ceiling |
| OwnerComparisons.KeepPicks | src/gossipmemo/reasoners/owner.py:291-300 | each item is picked exactly when it fits bare after those picked before it |
| OwnerComparisons.ExpandInferred | src/gossipmemo/reasoners/owner.py:302-309 | each item in turn takes the first 1200 characters of its last original exactly when that fits beside those decided before and the others bare; ids and ceiling are kept |
| OwnerComparisons.BoundedComparisons | src/gossipmemo/reasoners/owner.py:255-320 | fails exactly when the scaffolding alone is over budget; otherwise inferences and then hypotheses are picked bare, each exactly when it fits after those picked before, and then worded in turn, each exactly when its wording fits; the ceiling is a third of the budget above the scaffolding |

## Left out

- Text that is only white space counts as text in the turn protocol.
- The stretch of text an alias match covers: the code, and the model, take the alias's length, which is less when the text has wider white space.
- HTTP, the routes, the SDK, admin views, logging, tracing, the CLI and shutdown: plumbing without hard state.
- Prompt text, rendering, parsing and structured-output retries: a request is a value with a size and a completion is arbitrary.
- SQLite, FTS5, bm25, `vec0`, regular expressions, Unicode normalisation and wording similarity: queries answer as specified, occurrences and repeats are given.
- Floating point, SHA-256 collisions, random sampling and retry delays.
- The gate's labels and shared back-off deadline, which do not decide who is granted.
- The order of a card's delta rows and Relationship cards: a merge can make older Memories newly relevant to a Relationship whose watermark is not reset.
- The coverage entries an audit edits or adds, and the model's clarifications.
- Rewriting of continuities and of an alias's display value in a merge.
- A message's extraction row columns beyond batch, state and attempts, and the query's row limits.
- A hypothesis row that a claim creates under an id the model invented is identified by its position.
- `_merged_actions` on fields that are not lists.
- Continuity reasoning: its cursor is whatever existing message id the model returns.
- `reduce_until_fits` and settings validation: true but easy.
- The worker's retry loop while the embedding provider fails, and its grouping of a batch by space: each item carries its space.
- The schema that `schema.sql` completes after a fresh or adopted stamp; the pre-migration backup.
- The `should_continue` callback with which a caller ends a reasoner's loop between attempts.
- In the lifecycle a merge may move the links of a removed relationship anywhere; which relationships are joined is proved in `person_merge.dfy`.

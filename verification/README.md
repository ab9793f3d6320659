# Verified model of SpecPilot's budget, registry, checkpoint and retrieval cores

This project models the parts of SpecPilot whose correctness spans several functions or a whole
state machine, and proves what they are for.

- **The egress budget.** `Accounts` keeps the budget as flat books: for every account the map
  from disclosures to the sizes they were first counted at, and the decision over them in the
  enforcer's order. `OrderIndependence`, `ScopeInvariants` and `CorpusInvariants` prove what
  holds of these books, and `Charges` where a reservation is charged and under which caps. `Snapshots`, `AccountUpdates`, `ScopeUpdates`, `RootUpdates`,
  `CorpusUpdates` and `Enforcer` are the enforcer's loops over nested snapshots, proved to take
  the same decision and to represent the same books.
- **The ledger.** `Ledger` is the transactional state machine over heads, epochs, roots,
  reservations, attempts and seals; `LedgerInvariants`, `LedgerRuns`, `LedgerProperties`,
  `LedgerCalls` and `LedgerStates` prove its promises over whole runs; `LedgerTables` and `PostgresLedger` are the
  tables and the methods over them. A transaction has one of five fates: seen by its caller,
  committed unseen, rolled back unseen, refused by the database, or never connected.
- **The transport.** `Transport` interleaves any number of sends with foreign transactions,
  `EndToEnd` bounds what reaches the adapters, and `Sender` is one call as a program that refines
  one client's moves.
- **Collection leases and the freeze registry.** `Leases` is one lease, `Manifests` the registry and a
  create between other clients' stores, `FreezeRegistry` every interleaving of threads and leases,
  and `RegistryTrees` when those interleavings leave one tree per collection.
- **Resumable checkpoints.** `Checkpoints`, `CheckpointStore`, `CheckpointRuns`, `ResumeAnswers` and
  `PostgresCheckpoints`, with the run store's claim, heartbeat, completion and expiry as further
  transactions.
- **Smaller cores.** `ToolPlans` and `EvidenceAgent` (bounded tool plans), `Fusion` and
  `FusionMethod` (reciprocal rank fusion over exact rationals), `SectionTree` and `SectionNumbers`
  (section ownership and numbering), `Annotations` and `Progress` (amendment chains and the report).

Opaque identifiers, names and hashes are natural numbers. Where content addressing matters, the
hash is an injective function of the content; a policy stands for its own hash and a disclosure
id for the tuple it hashes. Random ids, clocks, replies of tools and providers, authorization and
the outcome of a commit are parameters, so the theorems hold for all of them. Several predicates
are kept folded behind `Maps.Unfold`, a name that only steers the verifier.

Four promises do not hold of the code without a condition, and the conditions are exact:

- `AnnotationStore.create` does not look at the predecessor a record names
  (`Annotations.CreateKeepsTreesIff`, `Annotations.OrphanExample`).
- Section numbers may repeat when an unnumbered section has numbered ones below it
  (`SectionNumbers.DocumentDistinctIff`, `SectionNumbers.NumbersMayCollide`).
- After a deletion a first write restarts at attempt 1 beside the attempts that survived, and
  often no resume is acquired again (`CheckpointRuns.FirstWriteAfterDeletion`,
  `CheckpointRuns.RestartedIsNeverResumed`).
- A freeze lease does not order the publications of its threads, so two of them may each read,
  pass the checks and store: a collection then has two roots, or an intent two manifests
  (`RegistryTrees.CollidingRun`, `RegistryTrees.TwoInsideMayCollide`). One tree per collection is
  kept exactly when every store would still pass the checks (`RegistryTrees.RunTreeIff`), and
  always when each freeze lease has one thread at a time inside
  (`RegistryTrees.AloneRunsKeepTrees`). Valid references and the exclusion of writes hold in
  every interleaving.

## Model

| member | source | states |
|---|---|---|
| `Acceptance.RootFits` | src/specpilot/egress/enforcer.py:452-513 | The ordered cap rejections of a root pass if and only if every touched account, counter and claim count is within a cap that belongs to the account, not to the call. |
| `Acceptance.RunFits` | src/specpilot/egress/enforcer.py:619-671 | A run step passes if and only if it is an online payload and the run, its claim, its transmissions, its TOC count and its claim count are all within their caps. |
| `Acceptance.CorpusFits` | src/specpilot/egress/enforcer.py:309-400 | The corpus rejections pass if and only if the corpus account and the named document account are within the policy caps. |
| `Acceptance.RootVerdict` | src/specpilot/egress/enforcer.py:403-533 | A root accepts a reservation if and only if its id, level and policy match, no disclosure contradicts a known size, and the posted book fits. |
| `Acceptance.CorpusVerdict` | src/specpilot/egress/enforcer.py:309-354 | A corpus accepts a reservation if and only if corpus and policy match, the document is priced, and the posted book fits. |
| `Acceptance.VerdictIsConjunction` | src/specpilot/egress/enforcer.py:102-152 | The whole ordered decision is one conjunction of binding, consistency and fit: nothing is accepted because of the order of the checks. |
| `OrderIndependence.PriceIsFirstSize` | src/specpilot/egress/enforcer.py:425-440 | The price of a request maps exactly its disclosure ids, each to a size the request states for it. |
| `OrderIndependence.PostCommutes` | src/specpilot/egress/enforcer.py:403-533 | Two consistent reservations leave the same books in either order, in every account and counter of both scopes. |
| `OrderIndependence.RunTakeOut` | src/specpilot/egress/enforcer.py:403-533 | Any reservation of a consistent batch may be the one applied last. |
| `OrderIndependence.RunPermuted` | src/specpilot/egress/enforcer.py:403-533 | Permuted batches end with the same id sets and the same totals in every scope. |
| `OrderIndependence.RunGrows` | src/specpilot/egress/enforcer.py:403-533 | Applying reservations only grows accounts and counters and never changes a known size. |
| `OrderIndependence.FitsDownward` | src/specpilot/egress/enforcer.py:733-757 | Whatever fits in the larger of two states fits in the smaller one. |
| `OrderIndependence.FitsForward` | src/specpilot/egress/enforcer.py:733-757 | A reservation that fitted still fits after another accepted one, because every touched account was checked again. |
| `OrderIndependence.AcceptedEndsWell` | src/specpilot/egress/enforcer.py:403-533 | An accepted batch ends in books in which every one of its reservations fits and is priced as known. |
| `OrderIndependence.EndsWellAccepted` | src/specpilot/egress/enforcer.py:403-533 | Conversely, a batch whose end state fits all of it was accepted step by step. |
| `OrderIndependence.OrderIndependent` | src/specpilot/egress/enforcer.py:309-710 | If a batch is accepted, every permutation and every sub-collection of it is accepted from the same books, and permutations end in the same books. |
| `ScopeInvariants.PriceAtMostSent` | src/specpilot/egress/enforcer.py:197-225 | The distinct disclosures of a request never weigh more than what it transmits. |
| `ScopeInvariants.IncrementStages` | src/specpilot/egress/enforcer.py:569-598 | A reservation adds to exactly one stage what it adds to the root. |
| `ScopeInvariants.IncrementRuns` | src/specpilot/egress/enforcer.py:476-513 | A reservation adds to exactly one run, or to the judge, what it adds to the root. |
| `ScopeInvariants.ConservedByPost` | src/specpilot/egress/enforcer.py:452-513 | Root transmissions stay equal to the sum over stages and to judge plus the sum over runs. |
| `ScopeInvariants.NestedByPost` | src/specpilot/egress/enforcer.py:425-513 | Root ids stay equal to the union of route ids and to the union of judge and run ids, and claim ids stay inside their run. |
| `ScopeInvariants.AllUniqueByPost` | src/specpilot/egress/enforcer.py:445-513 | At root, judge and run, unique totals stay at most the transmitted totals. |
| `ScopeInvariants.WithinByPost` | src/specpilot/egress/enforcer.py:733-757 | Every account, counter and claim count stays within its cap when the touched ones were checked. |
| `ScopeInvariants.RootInvariantByPost` | src/specpilot/egress/enforcer.py:403-710 | Nesting, conservation, unique-at-most-transmitted and all caps survive every accepted reservation. |
| `CorpusInvariants.OverlaySplit` | src/specpilot/egress/enforcer.py:325-335 | Charging an account adds exactly the sizes of the disclosures it had not seen. |
| `CorpusInvariants.CoveredByPost` | src/specpilot/egress/enforcer.py:357-400 | The union of the document ids stays equal to the corpus ids. |
| `CorpusInvariants.SharesByPost` | src/specpilot/egress/enforcer.py:309-400 | Document totals keep adding up to at least the corpus total, and to exactly it while document id sets are disjoint. |
| `CorpusInvariants.CorpusInvariantByPost` | src/specpilot/egress/enforcer.py:309-400 | The relation of a corpus to its documents survives every posting. |
| `CorpusInvariants.BatchCounters` | src/specpilot/egress/enforcer.py:452-466 | Stage sends grow by one per reservation, and root transmissions by what each request discloses with repetition. |
| `CorpusInvariants.AcceptedKeepsInvariants` | src/specpilot/egress/enforcer.py:102-152 | Both scope invariants hold after any accepted batch. |
| `CorpusInvariants.ReachableRoot` | src/specpilot/egress/enforcer.py:102-152 | From its first reservation on a root keeps its invariant, its stage sends count the reservations, and at most as many of them carry excerpts as the transmitted token cap allows. |
| `Charges.RootChargedWhere` | src/specpilot/egress/enforcer.py:442-513 | A posted reservation counts its new disclosures in exactly the root, its route, the judge or its run, and its claim; every other account is unchanged. |
| `Charges.CorpusChargedWhere` | src/specpilot/egress/enforcer.py:309-400 | In the corpus exactly the whole and the named document count them. |
| `Charges.SentCharged` | src/specpilot/egress/enforcer.py:452-483 | Repeated tokens and bytes are added at the root, the stage, and the judge or the run, and nowhere else. |
| `Charges.StageAndNodesCharged` | src/specpilot/egress/enforcer.py:569-671 | A reservation adds one transmission to its stage alone, and contents nodes to its run alone. |
| `Charges.AcceptedExactly` | src/specpilot/egress/enforcer.py:102-152 | A reservation is accepted if and only if its bindings and sizes agree with the books and every account it touches ends within the cap the policy names for that account and level. |
| `Charges.RejectionBlames` | src/specpilot/egress/enforcer.py:102-152 | Every rejection code names a binding that differs, a size that contradicts, or an account whose named cap is really exceeded. |
| `AccountUpdates.OrderedUnion` | src/specpilot/egress/enforcer.py:713-720 | The loop yields the first list followed by each new id of the second at its first occurrence. |
| `AccountUpdates.CountUnseen` | src/specpilot/egress/enforcer.py:325-340 | Counting a disclosure only when first seen gives exactly the distinct ids and totals of the charged account. |
| `AccountUpdates.Recount` | src/specpilot/egress/enforcer.py:713-730 | Recomputing an account from the merged facts gives the same distinct ids and totals. |
| `AccountUpdates.CheckUniqueDecides` | src/specpilot/egress/enforcer.py:733-745 | Comparing the stored list and totals with a cap decides the same as comparing the set of disclosures. |
| `AccountUpdates.CheckFacts` | src/specpilot/egress/enforcer.py:425-440 | A request is refused if and only if one of its facts contradicts a known size or another of its own; otherwise the distinct facts come out in first-seen order. |
| `AccountUpdates.MergeFacts` | src/specpilot/egress/enforcer.py:442-446 | The merged facts are the known ones followed by the new ones, without repetition. |
| `ScopeUpdates.UpdatedRoutes` | src/specpilot/egress/enforcer.py:535-566 | The route list represents the posted book: the named route charged or appended, the others untouched. |
| `ScopeUpdates.UpdatedStages` | src/specpilot/egress/enforcer.py:569-598 | The stage list represents the posted counters, including one more transmission for the named stage. |
| `ScopeUpdates.ClaimCount` | src/specpilot/egress/enforcer.py:639-640 | The length of a run's claim list is the number of its claims in the book. |
| `ScopeUpdates.UpdatedClaims` | src/specpilot/egress/enforcer.py:674-710 | The named claim is charged and checked, then the claim count; the outcome is that of the decision over the book. |
| `ScopeUpdates.UpdatedRunAccount` | src/specpilot/egress/enforcer.py:642-671 | The run's own account passes unique, transmitted and TOC caps in that order, or is refused with that code. |
| `ScopeUpdates.ApplyToRun` | src/specpilot/egress/enforcer.py:619-671 | A run step is refused with exactly the code of the ordered decision, or its result represents the run in the posted book. |
| `ScopeUpdates.UpdatedRuns` | src/specpilot/egress/enforcer.py:601-616 | The run list represents the posted book, with a run opened on its first reservation. |
| `RootUpdates.UpdatedTotals` | src/specpilot/egress/enforcer.py:442-466 | Root facts, unique and transmitted totals are checked and represent the posted book. |
| `RootUpdates.UpdatedJudge` | src/specpilot/egress/enforcer.py:484-505 | The judge account is charged and checked as the decision over the book says. |
| `RootUpdates.UpdatedScopes` | src/specpilot/egress/enforcer.py:442-533 | All scopes of a root move together, or the call is refused with the decision's code. |
| `RootUpdates.ApplyUsage` | src/specpilot/egress/enforcer.py:403-533 | A root snapshot is refused with exactly the code of the decision over the flat book, or the new snapshot represents the posted book. |
| `CorpusUpdates.SplitDocuments` | src/specpilot/egress/enforcer.py:372-374 | The documents are split around the one named, which occurs at most once. |
| `CorpusUpdates.ApplyDocumentUsage` | src/specpilot/egress/enforcer.py:357-400 | The named document is charged by first sight and checked, and the list stays in strict id order. |
| `CorpusUpdates.ApplyCorpusUsage` | src/specpilot/egress/enforcer.py:309-354 | A corpus usage is refused with the decision's code, or the new one represents the posted corpus book. |
| `Enforcer.PricedOneByOne` | src/specpilot/egress/enforcer.py:197-225 | Pricing succeeds if and only if each excerpt alone counts positive and fits the per-excerpt cap, and fact k prices excerpt k. |
| `Enforcer.DerivedMeaning` | src/specpilot/egress/enforcer.py:154-246 | A derived reservation is authorized, bound to the version, allowed for its stage and route use, discloses only its corpus, and obeys the per-call caps written out by level and payload kind. |
| `Enforcer.DerivedExactly` | src/specpilot/egress/enforcer.py:154-246 | A request is derived if and only if each stated condition on its fields holds: authorization, version, use, text and excerpt caps of its own level and kind, and every excerpt it carries priced and of its corpus. |
| `Enforcer.DerivedDiscloses` | src/specpilot/egress/enforcer.py:793-818 | Payload kind by payload kind: a derived reservation has exactly one fact per excerpt (or gold excerpt) the payload carries, in order, with its disclosure id, its count and its bytes; only a plan has none. |
| `Enforcer.RefusalBlames` | src/specpilot/egress/enforcer.py:154-246 | A refused derivation names a condition on the request that really fails. |
| `Enforcer.Derive` | src/specpilot/egress/enforcer.py:154-246 | The loop computes the derivation of the request, with the first failure in excerpt order. |
| `Enforcer.Prepare` | src/specpilot/egress/enforcer.py:83-100 | A prepared reservation carries exactly the derived facts. |
| `Enforcer.OnlyPreparedIsAccepted` | src/specpilot/egress/enforcer.py:115-152 | The only reservation that can be accepted for a request is the one the enforcer itself prepares: altered disclosures never pass. |
| `Enforcer.ApplyBoth` | src/specpilot/egress/enforcer.py:138-152 | Root first, then corpus: refused with the verdict's code, or both snapshots represent the posted books. |
| `Enforcer.ApplyReservation` | src/specpilot/egress/enforcer.py:102-152 | The whole step is refused with the decision's code, or moves both snapshots to represent the posted books of the canonical reservation. |
| `Snapshots.DistinctCount` | src/specpilot/egress/enforcer.py:733-741 | A distinct id list is as long as the set it lists. |
| `Snapshots.SizeSumsAreTotals` | src/specpilot/egress/enforcer.py:723-730 | Adding the sizes along a distinct list gives the totals of the account. |
| `Snapshots.UnionLists` | src/specpilot/egress/enforcer.py:713-720 | The ordered union lists exactly the charged account. |
| `LedgerInvariants.GrantedMeans` | src/specpilot/egress/postgres.py:213-284 | A granted row is placed under the locked head and root: fresh id and key, the root's own epoch, matching policies. |
| `LedgerInvariants.ReserveKeepsInv` | src/specpilot/egress/postgres.py:213-284 | A reservation keeps the ledger invariant whether it is granted, replayed or refused. |
| `LedgerInvariants.RebindKeepsInv` | src/specpilot/egress/postgres.py:315-440 | A rebind keeps the ledger invariant: one more epoch at the end of the corpus chain, or nothing. |
| `LedgerInvariants.RecordKeepsInv` | src/specpilot/egress/postgres.py:129-185 | Recording an attempt keeps the ledger invariant. |
| `LedgerInvariants.StepsKeepInv` | src/specpilot/egress/postgres.py:76-211 | The invariant holds after every run of transactions. |
| `LedgerInvariants.ReachableInv` | src/specpilot/egress/postgres.py:213-284 | In every reachable state each root is the fold of the enforcer over its own committed reservations from an empty book, each epoch the fold of those bound to it from what it inherited, chains are linear, and the scope invariants hold. |
| `LedgerRuns.StepLater` | src/specpilot/egress/postgres.py:76-211 | One transaction only extends history: epochs that are not heads stay unchanged, roots stay bound, usage grows. |
| `LedgerRuns.HeadStaysBehind` | src/specpilot/egress/postgres.py:395-425 | An epoch that stopped being the head never becomes the head again. |
| `LedgerRuns.StepsLater` | src/specpilot/egress/postgres.py:76-211 | Over any run chains and logs grow by appending, non-head epochs are frozen, and a root keeps its epoch, level and policy. |
| `LedgerProperties.GrantedOnce` | src/specpilot/egress/postgres.py:253-275 | Once a call is granted, a later call with the same root, run, policy and token is answered with the same row or refused, in every later state, and moves nothing. |
| `LedgerCalls.AnsweredByHistory` | src/specpilot/egress/postgres.py:213-285 | Over any run, a call that finds its epoch is refused as sealed if and only if its run was sealed before, is a replay if and only if a call with the same root, run, policy and token was granted before, and is otherwise refused by the enforcer or granted a row with exactly its own key, epoch and entry. |
| `LedgerCalls.HistoryTold` | src/specpilot/egress/postgres.py:704-745 | The log holds a row under a root, run, policy and token if and only if a call with those four was granted, and the seals are exactly the runs that were sealed. |
| `LedgerCalls.FoundBooks` | src/specpilot/egress/postgres.py:501-611 | A call is decided on the stored books of its root and of its corpus head, and a first call on books that have charged nothing at its own level and policy. |
| `LedgerCalls.ReboundExactly` | src/specpilot/egress/postgres.py:315-440 | A rebind makes an epoch if and only if it expects the head under its policy, asks for another and the id is free; finds its work done if and only if the head, or the head and its predecessor, are as asked; and conflicts otherwise. |
| `LedgerCalls.ReboundChanges` | src/specpilot/egress/postgres.py:396-440 | The new epoch has all that its predecessor has charged, the new policy and the head; every other epoch, head and table stays; any other rebind changes nothing. |
| `LedgerProperties.SealedForever` | src/specpilot/egress/postgres.py:287-300 | A sealed run is never granted a reservation again. |
| `LedgerProperties.AnswerByPosition` | src/specpilot/egress/postgres.py:346-394 | The answer to a rebind depends on the place of the expected id in the chain: earlier than the head's predecessor it conflicts whatever hashes are named. |
| `LedgerProperties.StaleForever` | src/specpilot/egress/postgres.py:363-370 | Once an epoch has two successors, expecting it conflicts for ever, also when policies went from A to B and back to A. |
| `LedgerProperties.RetryAnswersTheSame` | src/specpilot/egress/postgres.py:363-394 | A rebind retried after any run returns the same ids and inherited totals while its successor is the head, and conflicts once the head moved on. |
| `LedgerProperties.UsageGrowsAlongChain` | src/specpilot/egress/ledger.py:105-113 | Along a corpus chain every later epoch has counted at least what an earlier one had, at the same sizes. |
| `LedgerProperties.RootAccounted` | src/specpilot/egress/postgres.py:613-640 | A root's transmitted totals are exactly what its committed reservations disclose with repetition, and within its caps. |
| `LedgerTables.ReconciledAlways` | src/specpilot/egress/postgres.py:466-498 | Every epoch row the ledger wrote passes the comparison of its snapshot with its columns under its own corpus, and fails it under any other. |
| `LedgerTables.ReconciledExactly` | src/specpilot/egress/postgres.py:466-499 | A row is taken if and only if its corpus, policy and three counts are those of its own snapshot and the corpus is the one asked for. |
| `LedgerTables.HeadEpochs` | src/specpilot/egress/postgres.py:352-388 | The active epoch and the predecessor a retried rebind reads both belong to the requested corpus. |
| `LedgerTables.ReplayAgrees` | src/specpilot/egress/postgres.py:733-745 | A replayed row found under the locks always belongs to the locked corpus and epoch, and its root has a snapshot. |
| `LedgerTables.TotalsHeld` | src/specpilot/egress/postgres.py:443-463 | The counts a rebind reports are the number and the totals of the distinct disclosures inherited. |
| `LedgerTables.WriteMatches` | src/specpilot/egress/postgres.py:613-701 | The written rows represent the abstract ledger after the same reservation. |
| `LedgerTables.RebindMatches` | src/specpilot/egress/postgres.py:395-425 | The inserted epoch row and the moved head represent the abstract rebind. |
| `LedgerTables.RecordMatches` | src/specpilot/egress/postgres.py:140-172 | The attempt row and the reservation state represent the abstract record step. |
| `PostgresLedger.Enforce` | src/specpilot/egress/postgres.py:249-251 | The enforcer on the locked snapshots answers what it would on the abstract books. |
| `PostgresLedger.Database.LockCorpus` | src/specpilot/egress/postgres.py:501-567 | The locked usage represents the head epoch, or a fresh empty one for a corpus seen first. |
| `PostgresLedger.Database.LockRoot` | src/specpilot/egress/postgres.py:570-610 | The locked root snapshot represents the root, and a root bound to another epoch is refused. |
| `PostgresLedger.Database.FindReplay` | src/specpilot/egress/postgres.py:704-735 | The table lookup finds the committed reservation of a key exactly when there is one. |
| `PostgresLedger.Database.Transact` | src/specpilot/egress/postgres.py:213-284 | Locks, seal, replay, enforcer and writes answer as the abstract step does, and the tables to commit represent its result. |
| `PostgresLedger.Database.CheckAndReserve` | src/specpilot/egress/postgres.py:76-102 | The database makes exactly the abstract step when it commits and none otherwise; an ambiguous answer says nothing about which. |
| `PostgresLedger.Database.RebindPolicy` | src/specpilot/egress/postgres.py:104-127 | The database makes exactly the abstract rebind when it commits, and reports the inherited counts. |
| `PostgresLedger.Database.RecordAttempt` | src/specpilot/egress/postgres.py:129-185 | Success is reported exactly when the record committed, was seen, and its reservation exists. |
| `PostgresLedger.Database.SealRun` | src/specpilot/egress/postgres.py:187-202 | The run is sealed exactly when the transaction committed, and every failure reads as unavailable. |
| `LedgerStates.StatesTellAttempts` | src/specpilot/egress/postgres.py:140-172 | In every reachable ledger a reservation is reserved until an attempt is recorded and then as its last attempt ended, and every attempt names a committed reservation. |
| `Transport.ReserveSafe` | src/specpilot/providers/transport.py:129-139 | Reserving keeps the system safe: only a delivered fresh grant lets a client hold a reservation, and it is on no wire. |
| `Transport.HandOverSafe` | src/specpilot/providers/transport.py:147-149 | Handing a held payload over keeps every reservation on the wire at most once. |
| `Transport.RecordSafe` | src/specpilot/providers/transport.py:262-289 | Recording keeps exits accounted for under every fate of the write. |
| `Transport.SealSafe` | src/specpilot/providers/transport.py:252-260 | Sealing ends a send as raised, with the seal tried. |
| `Transport.MovesSafe` | src/specpilot/providers/transport.py:116-289 | Every interleaving of sends, cancellations and foreign transactions keeps the system safe. |
| `EndToEnd.HandedIsCharged` | src/specpilot/providers/transport.py:128-149 | What a payload discloses, counted by the call's own counter, is what its reservation charged. |
| `EndToEnd.SentOnce` | src/specpilot/providers/transport.py:134-149 | Each committed reservation is handed to an adapter at most once, in every interleaving. |
| `EndToEnd.WireBound` | src/specpilot/providers/transport.py:116-289 | Excerpt tokens and bytes ever handed to adapters for a root are at most its committed transmitted totals, hence at most its caps. |
| `EndToEnd.ExitsAccountedFor` | src/specpilot/providers/transport.py:164-289 | A receipt means a succeeded attempt is recorded; any other exit after a hand-over has recorded a failed attempt or tried to seal the run. |
| `Sender.AnswerDecides` | src/specpilot/providers/transport.py:129-139 | A caller may send exactly when its answer is a fresh reservation, and is otherwise told of the lost commit, the refusal, the seal or the replay. |
| `Sender.CallForExactly` | src/specpilot/providers/transport.py:121-134 | The call a request becomes carries that request, the server policy and counter, the second authorization and the caller token, or the refusal of its facts. |
| `Sender.UnsentExactly` | src/specpilot/providers/transport.py:127-139 | A caller whose payload stayed is told that the commit is unknown, that the ledger is unavailable, or exactly the ledger reply. |
| `Sender.AccountedExactly` | src/specpilot/providers/transport.py:147-200 | A receipt, a failed attempt, an unrecorded attempt and an interruption are each told if and only if adapter, record and caller ended that way. |
| `Sender.AccountedLedger` | src/specpilot/providers/transport.py:202-290 | Accounting for a send adds exactly the attempt and its state when that write got through, and the seal when the record was not seen or the caller was disturbed and that write got through. |
| `Sender.PolicyBoundTransport.Send` | src/specpilot/providers/transport.py:116-200 | An unroutable or unprepared request is told so and nothing moves; otherwise exactly the prepared call is handed over, and only after a fresh grant was seen, and outcome, wire and ledger are those of that grant, of the adapter's end and of the fate of the writes; all as moves of one client. |
| `Sender.PolicyBoundTransport.SendPrepared` | src/specpilot/providers/transport.py:129-200 | A prepared call is reserved, handed over at most once and accounted for, or told why not. |
| `Sender.PolicyBoundTransport.Deliver` | src/specpilot/providers/transport.py:147-200 | Under a held reservation exactly its payload is handed over; the outcome is the one its adapter's end and the fate of its record call for, and a receipt needs both. |
| `Sender.PolicyBoundTransport.RecordAfterSend` | src/specpilot/providers/transport.py:202-227 | A recorded attempt gives the receipt or the known failure; an unrecorded one seals the run and raises what the write raised; a cancellation reconciles. |
| `Sender.PolicyBoundTransport.Reconcile` | src/specpilot/providers/transport.py:229-250 | A cancelled send settles its record, sealing when that fails, and seals the run in every case. |
| `Manifests.ForestGrows` | src/specpilot/manifests/corpus_store.py:988-1008 | A manifest whose predecessor reference is valid may be stored: every reference names an earlier manifest of its collection, ids are distinct. |
| `Manifests.FaultExactly` | src/specpilot/manifests/corpus_store.py:988-1015 | Each publication fault in exactly its case: the named predecessor is nowhere, or only in another collection, or none is named although the collection has manifests. |
| `Manifests.FoundExactly` | src/specpilot/manifests/corpus_store.py:483-501 | A search conflicts if and only if two stored manifests share the intent, and otherwise answers the one manifest of the intent, or none if there is none. |
| `Manifests.CreatedAlone` | src/specpilot/manifests/corpus_store.py:517-537 | An undisturbed create stores its manifest if and only if no manifest has its intent, the predecessor it names is in its collection, and it names one if the collection has any; the answer is the manifest exactly when it was stored or is alone with its intent. |
| `Manifests.TreeGrowsIff` | src/specpilot/manifests/corpus_store.py:738-753 | Storing a manifest keeps one tree per collection and one manifest per intent if and only if it would pass the checks against the registry it is stored into, not only the one that was read. |
| `Manifests.PathsDescend` | src/specpilot/manifests/corpus_store.py:1003-1015 | In every registry that interleaved clients leave, following predecessors never returns: positions fall along every path, inside one collection. |
| `Manifests.ReachesRoot` | src/specpilot/manifests/corpus_store.py:1003-1015 | In every such registry each manifest reaches a manifest without predecessor of its own collection. |
| `Manifests.OneRoot` | src/specpilot/manifests/corpus_store.py:988-1000 | In a tree a collection has at most one manifest without predecessor. |
| `Manifests.MatchesOnly` | src/specpilot/manifests/corpus_store.py:495-501 | The match for an intent is the manifest itself if and only if no other manifest has its intent. |
| `Manifests.CreateIsSound` | src/specpilot/manifests/corpus_store.py:517-537 | Whatever others store between the reads and the store of a create, references stay valid and the registry only grows. |
| `Manifests.AnsweredIsStored` | src/specpilot/manifests/corpus_store.py:517-537 | A manifest that create returns is the one drafted and is in the registry. |
| `Manifests.CreateKeepsTreeIff` | src/specpilot/manifests/corpus_store.py:517-537 | A create keeps a tree if and only if what it stores is still publishable in the registry of that moment. |
| `Manifests.UndisturbedKeepsTree` | src/specpilot/manifests/corpus_store.py:517-537 | A create keeps a tree when others store only in other collections between its last read and its store. |
| `Manifests.CreateIsIdempotent` | src/specpilot/manifests/corpus_store.py:517-537 | A stored draft created again stores nothing and returns the stored manifest if and only if no other manifest has its intent; otherwise it conflicts. |
| `Manifests.TwiceIsForEver` | src/specpilot/manifests/corpus_store.py:495-500 | Once two manifests share an intent, every later search of it raises the conflict. |
| `Manifests.CorpusManifestStore.FindByIntent` | src/specpilot/manifests/corpus_store.py:483-501 | The search returns the one manifest of an intent in the registry it reads, none, or a conflict of several. |
| `Manifests.CorpusManifestStore.RequirePublishable` | src/specpilot/manifests/corpus_store.py:503-515 | The second read of a create answers the first publication fault of the registry it sees. |
| `Manifests.CorpusManifestStore.PublishUnder` | src/specpilot/manifests/corpus_store.py:713-764 | Publishing checks the registry it read and stores into the registry of that moment, or settles on the one match, or refuses. |
| `Manifests.CorpusManifestStore.Create` | src/specpilot/manifests/corpus_store.py:517-537 | Between any other stores, create answers and changes the registry as its four views of it specify; a returned manifest is stored and is the one drafted. |
| `Leases.EnteredOk` | src/specpilot/manifests/corpus_store.py:278-279 | Entering keeps the active count equal to the sum of the threads' depths, and needs open descriptors. |
| `Leases.LeftOk` | src/specpilot/manifests/corpus_store.py:282-291 | Leaving keeps the active count equal to the sum of the threads' depths. |
| `Leases.NothingBeginsAfterDrain` | src/specpilot/manifests/corpus_store.py:241-244 | Once the descriptors are taken every entry is refused, under every thread. |
| `Leases.EntryExactly` | src/specpilot/manifests/corpus_store.py:229-250 | An entry is accepted if and only if the lease is open to its thread and the entry names the lease collection, its owner token when one is given and its mode when one is asked for; each refusal is the first of these to fail. |
| `Leases.EnterLeave` | src/specpilot/manifests/corpus_store.py:252-291 | Entering goes one deeper for this thread and no other, and leaving undoes it. |
| `Leases.CollectionLease.Enter` | src/specpilot/manifests/corpus_store.py:229-279 | Entry is refused in the order closed, closing without nesting, collection, store, mode; otherwise the thread is one deeper. |
| `Leases.CollectionLease.Leave` | src/specpilot/manifests/corpus_store.py:280-291 | Leaving makes the thread one shallower and reports the drain exactly when nobody is inside. |
| `Leases.CollectionLease.BeginClose` | src/specpilot/manifests/corpus_store.py:373-397 | Close is refused inside an operation, returns when closed, follows a leader, or leads. |
| `Leases.CollectionLease.ReleaseLock` | src/specpilot/manifests/corpus_store.py:408-412 | The file lock is released for the first and only time. |
| `FreezeRegistry.NextSafe` | src/specpilot/manifests/corpus_store.py:229-423 | Every section of every thread keeps lease counts, locks, pending publications, closers and the references of the registry sound. |
| `FreezeRegistry.RunSafe` | src/specpilot/manifests/corpus_store.py:229-423 | Every interleaving of clients and of threads inside one lease does; what it does not keep, one tree per collection, is the matter of RegistryTrees. |
| `FreezeRegistry.NoWriteOverlapsPublication` | src/specpilot/manifests/corpus_store.py:713-764 | From the read of a publication until its lease is left no write operation on the collection is under way, none that names it is admitted under any lease, and no write lease on it can be locked or issued. |
| `FreezeRegistry.FrozenForEver` | src/specpilot/manifests/corpus_store.py:539-558 | Once a manifest of a collection is stored, in every later state it is stored, no write operation on the collection is under way, none that names it is admitted under any lease, and no write lease on it is issued. |
| `FreezeRegistry.LeasesDrain` | src/specpilot/manifests/corpus_store.py:373-423 | In every reachable state counts equal the sum of depths, closing leases allow only nesting, descriptors go only when empty, the lock is released at most once, and a close that came back left a closed lease. |
| `FreezeRegistry.DrainIsFinal` | src/specpilot/manifests/corpus_store.py:373-423 | Closing, taken descriptors and closed are final under every later section. |
| `FreezeRegistry.AcquiredExactly` | src/specpilot/manifests/corpus_store.py:605-658 | A file lock is granted if and only if no locked lease of the same collection holds it the other way, and the new lease is as asked for. |
| `FreezeRegistry.WriterGetsIn` | src/specpilot/manifests/corpus_store.py:539-558 | On a collection without manifests that no freeze lease holds, a writer acquires, is issued its lease and is admitted. |
| `FreezeRegistry.CloseBegins` | src/specpilot/manifests/corpus_store.py:373-400 | A close is refused inside an operation, comes back from a closed lease, follows one that is closing, and otherwise leads; a follower comes back if and only if the lease is closed. |
| `FreezeRegistry.LeaderFinishes` | src/specpilot/manifests/corpus_store.py:373-423 | The leader of a close waits while anybody is inside, and afterwards takes the descriptors, releases the lock once and comes back from a closed lease. |
| `FreezeRegistry.PublishedAlone` | src/specpilot/manifests/corpus_store.py:713-764 | A publication that meets no other is stored if and only if its intent is new, its predecessor is in its collection, and it names one if the collection has any. |
| `RegistryTrees.RunTreeIff` | src/specpilot/manifests/corpus_store.py:738-753 | A run leaves one tree per collection and one manifest per intent if and only if each of its stores was still publishable when it was made; a tree once lost is not regained. |
| `RegistryTrees.AloneIsTimely` | src/specpilot/manifests/corpus_store.py:229-291 | With one thread at a time inside each freeze lease every store is still publishable, however many leases and collections interleave. |
| `RegistryTrees.AloneRunsKeepTrees` | src/specpilot/manifests/corpus_store.py:517-537 | Every run from the empty registry with one thread at a time inside each freeze lease leaves one tree per collection. |
| `RegistryTrees.TwoInsideMayCollide` | src/specpilot/manifests/corpus_store.py:713-753 | From any state with two threads inside one freeze lease two drafts that pass the checks can both be stored, and then no tree is left. |
| `RegistryTrees.CollidingRun` | src/specpilot/manifests/corpus_store.py:713-753 | A concrete run of two threads in one freeze lease stores two manifests of one intent, and every later search of it fails. |
| `Checkpoints.HistoryIsBound` | src/specpilot/checkpoints/contracts.py:224-249 | Along a stored history bindings are constant, attempts and versions never fall, and before completion each entry is one version later. |
| `Checkpoints.BudgetNeverShrinks` | src/specpilot/checkpoints/contracts.py:250-266 | Until COMPLETED tool attempts, reservations, generations, cursor, completed claims and the recovery flag never shrink, so compaction cannot reset a live budget. |
| `Checkpoints.CompletedAfterSemantic` | src/specpilot/checkpoints/contracts.py:35-76 | COMPLETED is entered only from SEMANTIC_VERIFIED. |
| `Checkpoints.RecoveryIsReverified` | src/specpilot/checkpoints/contracts.py:35-76 | Between RECOVERY_COMPLETED and a later SEMANTIC_VERIFIED there is a DETERMINISTIC_VERIFIED. |
| `Checkpoints.EnteredFrom` | src/specpilot/checkpoints/contracts.py:35-76 | For each stage, the stages it was entered from. |
| `Checkpoints.PhasesClimb` | src/specpilot/checkpoints/contracts.py:35-76 | Planned, evidence, candidate and verification never fall back, and no entry skips one; COMPLETED is final. |
| `Checkpoints.SemanticAfterCandidate` | src/specpilot/checkpoints/contracts.py:35-76 | A SEMANTIC_VERIFIED has an EVIDENCE_COLLECTED, then a CANDIDATE_BUILT, then a DETERMINISTIC_VERIFIED or RECOVERY_RESERVED before it. |
| `Checkpoints.PlannedBeforeEvidence` | src/specpilot/checkpoints/contracts.py:35-76 | Only PLANNED precedes the first EVIDENCE_COLLECTED, and it does not come back. |
| `Checkpoints.ReservedClaimIsKept` | src/specpilot/checkpoints/contracts.py:261-266 | While a recovery is reserved its claim stays the same. |
| `Checkpoints.TransitionExactly` | src/specpilot/checkpoints/contracts.py:224-270 | The transition rule field by field: version, run, attempt, binding, a road of the graph, everything spent, and the reserved claim. |
| `Checkpoints.ResumedKeeps` | src/specpilot/checkpoints/postgres.py:377-384 | A resume changes attempt, version and access alone. |
| `Checkpoints.CompactedKeeps` | src/specpilot/checkpoints/postgres.py:509-551 | A compaction clears plan, evidence, tool attempts, reservations, generations and the recovery fields, keeps everything else, and a second one clears nothing more. |
| `CheckpointRuns.StepsKeepInv` | src/specpilot/checkpoints/postgres.py:96-569 | Over any run of transactions attempts are 1..n with only the last possibly open, keys are unique, and the stored history is lawful. |
| `CheckpointRuns.AcquiredMeans` | src/specpilot/checkpoints/postgres.py:249-388 | An acquisition finds the checkpoint at the latest attempt, closed by expiry, with no attempt for the key, and numbers the next one. |
| `CheckpointRuns.KeyAcquiresOnce` | src/specpilot/checkpoints/postgres.py:276-360 | A resume key acquires one attempt; in every later state it is answered with the same number or refused, and moves nothing. |
| `CheckpointRuns.StaleWritesAreFenced` | src/specpilot/checkpoints/postgres.py:96-223 | Once attempt n is acquired, until a deletion, a write is accepted if and only if it names the run, its binding and its own reservations, names the stored version and follows on the stored checkpoint field by field, and then its attempt is at least n. |
| `CheckpointRuns.WriteExactly` | src/specpilot/checkpoints/postgres.py:96-223 | A write is accepted if and only if it names the run and either begins it or follows on what is stored; the integrity error is for a write in turn that follows on nothing lawful. |
| `CheckpointRuns.WriteStores` | src/specpilot/checkpoints/postgres.py:130-175 | An accepted write is stored as given but for its access time; the first one opens attempt 1 with the start, end and reason of the run row; a refused one changes nothing. |
| `CheckpointRuns.RoadsAreTaken` | src/specpilot/checkpoints/contracts.py:35-76 | From a stored checkpoint of any stage, a write that only moves to another stage is accepted if and only if the graph has that edge, so every edge is taken. |
| `ResumeAnswers.AcquiredExactly` | src/specpilot/checkpoints/postgres.py:249-388 | An attempt is acquired if and only if the run stopped by expiry, the key is unused, the checkpoint is of the last attempt, which expired, the deployment is the same and every send of the checkpoint is settled. |
| `ResumeAnswers.ReplayedExactly` | src/specpilot/checkpoints/postgres.py:337-360 | An attempt is answered again if and only if it carries the key, is the last one and the checkpoint's, and is open while the run works or ended as the run did. |
| `ResumeAnswers.RefusedFor` | src/specpilot/checkpoints/postgres.py:262-326 | Every other answer is the first complaint that applies, each stated on the rows. |
| `ResumeAnswers.AcquiredMoves` | src/specpilot/checkpoints/postgres.py:354-400 | An acquisition puts the run under the caller's lease, adds one open attempt under the key and hands the checkpoint on with only attempt, version and access changed; any other answer moves nothing. |
| `ResumeAnswers.FailedExactly` | src/specpilot/checkpoints/postgres.py:435-507 | A failed delivery is taken if and only if it comes from the owner of a live lease for the open attempt the checkpoint is in; it ends that attempt and the run and touches nothing else. |
| `ResumeAnswers.UndeliveredIsSealed` | src/specpilot/checkpoints/postgres.py:435-445 | A run whose resume was not delivered is resumed in no later state until its checkpoint is deleted. |
| `ResumeAnswers.ReconciledExactly` | src/specpilot/runs/postgres.py:506-551 | Before its expiry a worked run is left alone; from then on it is interrupted and every open attempt ends by expiry. |
| `ResumeAnswers.LeaseSteps` | src/specpilot/runs/postgres.py:169-246 | A queued run is claimed before its expiry, and only the owner of a live lease prolongs it, never shortening it, or ends the run; nothing else of the rows moves. |
| `ResumeAnswers.ExpiryReopens` | src/specpilot/checkpoints/postgres.py:249-388 | An acquired attempt that expires leaves the run resumable: another unused key acquires the next attempt. |
| `ResumeAnswers.DeletedExactly` | src/specpilot/checkpoints/postgres.py:553-569 | A checkpoint is deleted if and only if its run is idle, it is not completed and was last touched before the time given; attempts stay. |
| `CheckpointRuns.StoredHistory` | src/specpilot/checkpoints/postgres.py:96-223 | The stored history has the run's bindings throughout and grows its budget until completion. |
| `CheckpointRuns.StrandedForGood` | src/specpilot/checkpoints/postgres.py:327-360 | A checkpoint behind the latest attempt, or of an idle run that is not waiting after an expiry, is resumed in no later state until it is deleted. |
| `CheckpointRuns.FirstWriteAfterDeletion` | src/specpilot/checkpoints/postgres.py:145-178 | A first write after a deletion leaves a run that can be resumed if and only if the rows held no attempt and a run stopped by expiry, or exactly one attempt ended by expiry; otherwise every resume is refused until the next deletion. |
| `CheckpointRuns.RestartedIsNeverResumed` | src/specpilot/checkpoints/postgres.py:145-178 | A concrete run with two attempts, a deletion and an accepted first write, after which no resume is acquired until the next deletion. |
| `CheckpointRuns.FreshRun` | src/specpilot/checkpoints/postgres.py:96-569 | Every run of transactions on a fresh run satisfies the invariant, and until a deletion the checkpoint carries the latest attempt. |
| `PostgresCheckpoints.RunRows.LatestAttempt` | src/specpilot/checkpoints/postgres.py:327-336 | The loop finds the attempt with the greatest number. |
| `PostgresCheckpoints.RunRows.Write` | src/specpilot/checkpoints/postgres.py:96-223 | The write answers and changes the rows as specified: bindings, reservations, version, first stage, transition, in that order. |
| `PostgresCheckpoints.RunRows.BeginResume` | src/specpilot/checkpoints/postgres.py:249-433 | The resume answers in the order of its checks and, when acquired, opens the next attempt, moves the run and the checkpoint together. |
| `PostgresCheckpoints.RunRows.FailResumeDelivery` | src/specpilot/checkpoints/postgres.py:435-507 | Delivery failure closes the named open attempt and interrupts the run, only for the live lease and the checkpoint's attempt. |
| `PostgresCheckpoints.RunRows.Compact` | src/specpilot/checkpoints/postgres.py:509-551 | Only a completed checkpoint is compacted, in place and without a new version. |
| `PostgresCheckpoints.RunRows.DeleteExpired` | src/specpilot/checkpoints/postgres.py:553-569 | Only an idle, uncompleted, stale checkpoint is deleted; attempts remain. |
| `ToolPlans.InvocationsWithinCost` | src/specpilot/agents/contracts.py:119-125 | A step never makes more invocations than its cost. |
| `ToolPlans.PlanWithinCost` | src/specpilot/agents/contracts.py:131-133 | A plan never unfolds to more invocations than its base call cost. |
| `ToolPlans.CostIsMet` | src/specpilot/agents/contracts.py:119-133 | The cost is no more than needed: a plan makes that many invocations when no clause is named twice and every step referred to yields enough. |
| `ToolPlans.InvokedExactly` | src/specpilot/agents/evidence.py:171-191 | A step invokes its own tool on its corpus and documents: once, or for each clause it names once, or for the first of those an earlier step yielded, and is unresolved if and only if there are none. |
| `ToolPlans.ReadExactly` | src/specpilot/agents/evidence.py:207-270 | How each tool's result is read: a search is taken if and only if each hit is of the corpus and of a document asked for, a clause if and only if it is the one asked for and the local unit is the same; ids once each in order, counts of the whole result, evidence from clauses alone. |
| `EvidenceAgent.CallWithRetry` | src/specpilot/agents/evidence.py:101-133 | The loop makes exactly the calls of an invocation: none without budget, a second only after a timed-out first, and reports how the last one ended. |
| `EvidenceAgent.LastInvocation` | src/specpilot/agents/evidence.py:98-155 | In every run a retry follows exactly a timed-out first try of the same invocation, and before an invocation every earlier one yielded. |
| `EvidenceAgent.SummariesCount` | src/specpilot/agents/evidence.py:135-147 | There is one summary per invocation called, naming its step, and one attempt more per retry, at most one each. |
| `EvidenceAgent.SummariesTell` | src/specpilot/agents/evidence.py:135-147 | Every summary but the last is of an invocation that yielded, and the last tells what the last call was answered. |
| `EvidenceAgent.FirstTriesBound` | src/specpilot/agents/evidence.py:101-133 | Calls are at most twice the invocations, and equal to them when nothing timed out. |
| `EvidenceAgent.KeptIsDistinct` | src/specpilot/agents/evidence.py:289-302 | Kept evidence has distinct clauses and distinct contents, and every dropped item shares one with a kept item. |
| `EvidenceAgent.KeptIsFirst` | src/specpilot/agents/evidence.py:289-302 | Of items that share a clause or a content the earlier one is kept. |
| `EvidenceAgent.KeptInOrder` | src/specpilot/agents/evidence.py:289-302 | What is kept keeps its order. |
| `EvidenceAgent.DedupeEvidence` | src/specpilot/agents/evidence.py:289-302 | The loop keeps an item exactly when no kept item shares its clause or content. |
| `EvidenceAgent.FoundIsAsked` | src/specpilot/agents/evidence.py:245-270 | Evidence comes only from clauses that were asked for and that the local unit confirms. |
| `EvidenceAgent.InvokeOnce` | src/specpilot/agents/evidence.py:98-155 | An invocation goes on exactly when its last call yielded, with its ids; otherwise the run ends with what that call, or the spent budget, calls for. |
| `EvidenceAgent.RunStep` | src/specpilot/agents/evidence.py:91-156 | A step makes its invocations in order and yields exactly what they returned, or stops at the first that does not. |
| `EvidenceAgent.Execute` | src/specpilot/agents/evidence.py:91-162 | The first tries are the plan's invocations in order, and the run stops only where its plan is done, a call yielded nothing, the budget is spent before the next one, or a reference yielded nothing; the outcome tells which. |
| `EvidenceAgent.Collect` | src/specpilot/agents/evidence.py:73-162 | Budget, plan and scope errors are each returned exactly in their case and call nothing; in every other case the calls and the outcome are those of a run of the plan. |
| `EvidenceAgent.RunPromises` | src/specpilot/agents/evidence.py:73-162 | Attempts returned are prior attempts plus actual calls within the budget, retries are at most one per invocation, errors come last, and evidence is distinct and asked for. |
| `EvidenceAgent.EndsAsAnswered` | src/specpilot/agents/evidence.py:101-155 | First tries are a prefix of the plan; a run aborts if and only if its last reply is a result that is not taken, for its scope or for its content; after a failure the last summary carries the code the tool gave. |
| `EvidenceAgent.ForeignHitEndsRun` | src/specpilot/agents/evidence.py:207-225 | A search that answers with a hit of another corpus, or of a document not asked for, is the last call of its run, and the run is given up for its scope. |
| `EvidenceAgent.BudgetIsForTimeouts` | src/specpilot/agents/evidence.py:98-113 | A run of a plan that fits its budget blames the budget only if a call timed out. |
| `EvidenceAgent.CleanRunIsThePlan` | src/specpilot/agents/evidence.py:91-162 | A run reports no error if and only if every step was resolved and it made exactly the plan's invocations and each yielded. |
| `Fusion.BetterScores` | src/specpilot/retrieval/hybrid.py:114-118 | Ranked strictly better in every route that lists the other, an identity scores strictly higher. |
| `Fusion.RouteOrderIsIrrelevant` | src/specpilot/retrieval/hybrid.py:80-136 | The fused list is a function of the set of rankings. |
| `Fusion.OneHitEach` | src/specpilot/retrieval/hybrid.py:97-112 | No identity is listed twice. |
| `Fusion.DominanceDecides` | src/specpilot/retrieval/hybrid.py:114-135 | An identity ranked strictly better than another in every route the other appears in precedes it. |
| `Fusion.BeforeOrder` | src/specpilot/retrieval/protocol.py:105-107 | Hits with different tie keys are strictly ordered, one way only. |
| `Fusion.BeforeExactly` | src/specpilot/retrieval/protocol.py:105-107 | Higher scores come first; at equal scores the lower document, then clause path, then start. |
| `Fusion.HitsTellRanks` | src/specpilot/retrieval/hybrid.py:97-124 | A route ranks a hit if and only if it lists the passage, by the first place where it does; the unit shown is the least of those at these places. |
| `Fusion.EachPassageOnce` | src/specpilot/retrieval/hybrid.py:97-112 | Every ranked passage, that is corpus, document, clause and span, is listed at exactly one place. |
| `Fusion.ScoreAdds` | src/specpilot/retrieval/hybrid.py:114-119 | A score is 0 without ranks and grows by 1/(k+rank) with each route. |
| `Fusion.CoherentExactly` | src/specpilot/retrieval/hybrid.py:97-112 | Locators are coherent if and only if those of one passage are equal and those sharing document, path and start are of one passage. |
| `FusionMethod.GroupedStep` | src/specpilot/retrieval/hybrid.py:100-112 | Reading one more rank keeps each identity's best rank and unit per route. |
| `FusionMethod.ScoreOf` | src/specpilot/retrieval/hybrid.py:114-119 | The loop computes the sum of 1/(k+rank) over the routes, independent of their order. |
| `FusionMethod.LeastUnit` | src/specpilot/retrieval/hybrid.py:122-122 | The unit shown is the least of those at a best rank. |
| `FusionMethod.Group` | src/specpilot/retrieval/hybrid.py:97-112 | The nested loops group all rankings, or report a clash exactly when the locators are incoherent, and of the kind that two ranked units show. |
| `FusionMethod.Fuse` | src/specpilot/retrieval/hybrid.py:80-136 | Fusion is refused in the order of its checks, succeeds exactly on coherent locators, names a clash that two ranked units show, and otherwise lists each ranked identity once with its best rank per route, strictly sorted. |
| `SectionTree.YieldedMeans` | src/specpilot/corpus/walk.py:178-208 | Reaching a unit means that it is of a kind the reader takes, named by tag, and that nothing on the way is a section, a label (for prose) or such a unit. |
| `SectionTree.OwnedMeans` | src/specpilot/corpus/walk.py:178-208 | A section owns exactly the blocks below it of the tags the reader takes that no section, label or taken block on the way hides, for prose and for tables. |
| `SectionTree.OwnedInOrder` | src/specpilot/corpus/walk.py:178-208 | Owned units come in document order, each once, and none lies inside another. |
| `SectionTree.OwnedByOneSection` | src/specpilot/corpus/walk.py:178-208 | No unit is owned by two sections. |
| `SectionTree.NearestSectionOwns` | src/specpilot/corpus/walk.py:178-208 | A unit is owned by its nearest enclosing section if and only if nothing between hides it. |
| `SectionNumbers.WalkInto` | src/specpilot/corpus/walk.py:211-244 | The recursive loop with its counter and shared list appends exactly the specified sections in document order. |
| `SectionNumbers.ListSections` | src/specpilot/corpus/walk.py:247-264 | The document lists its middle, then its lettered back matter without unnumbered apparatus. |
| `SectionNumbers.ListedExactly` | src/specpilot/corpus/walk.py:211-264 | Exactly the sections reached through sections are listed, each with the number its path spells: at each numbered step, which of its numbered siblings it is; back matter lists only what is below numbered sections. |
| `SectionNumbers.SectionsInOrder` | src/specpilot/corpus/walk.py:247-264 | The document's sections come in reading order, each once. |
| `SectionNumbers.DistinctIff` | src/specpilot/corpus/walk.py:211-244 | Numbers below an element are distinct if and only if every numbering scope has at most one element that starts the numbering. |
| `SectionNumbers.DistinctMeans` | src/specpilot/corpus/walk.py:211-244 | No two places carry one number if and only if no number occurs twice. |
| `SectionNumbers.DocumentDistinctIff` | src/specpilot/corpus/walk.py:247-264 | Numbers of a document, with or without middle and back matter, are distinct if and only if the scopes of the parts it has are sound. |
| `SectionNumbers.ConformingNumbersDistinct` | src/specpilot/corpus/walk.py:211-264 | With no numbered section below an unnumbered one, numbers are distinct. |
| `SectionNumbers.NumbersMayCollide` | src/specpilot/corpus/walk.py:226-243 | A concrete tree with a numbered section below an unnumbered one repeats a number. |
| `Annotations.SuccessorAmends` | src/specpilot/annotation/store.py:127-157 | The amended record has exactly the old and the added gold and paths without repetition in the order met, old then added origins, the figure given or else the old one, the amended id as predecessor, one note more, and everything else unchanged. |
| `Annotations.AmendedExactly` | src/specpilot/annotation/store.py:119-157 | An amendment is refused for the first failing condition on the stored record and the amendment, and otherwise stores beside it the record the amendment describes. |
| `Annotations.AmendKeepsTrees` | src/specpilot/annotation/store.py:108-157 | An amendment keeps one tree per item, keeps question and earlier gold, adds one adjudication, changes no record, and repeated alike it changes nothing. |
| `Annotations.RootIsKept` | src/specpilot/annotation/progress.py:263-279 | The walk back ends at a root of the same item and question whose gold is still in the record. |
| `Annotations.OneRootPerItem` | src/specpilot/annotation/store.py:249-254 | All records of an item lead to one root. |
| `Annotations.CreateKeepsTreesIff` | src/specpilot/annotation/store.py:98-106 | Create keeps one tree per item if and only if the record names no predecessor, or its item is already owned and the create is refused. |
| `Annotations.OrphanExample` | src/specpilot/annotation/store.py:98-106 | A concrete record with a predecessor, created in an empty store, leaves an item without a root. |
| `Annotations.StepsKeepTrees` | src/specpilot/annotation/store.py:98-157 | Every store built by creating roots and amending holds one tree per item, and no record changes or goes. |
| `Annotations.AnnotationStore.Create` | src/specpilot/annotation/store.py:98-106 | An item owned by another record is refused; otherwise the record is stored under its content. |
| `Annotations.AnnotationStore.Amend` | src/specpilot/annotation/store.py:108-157 | An amendment is accepted if and only if the record exists, nothing is removed, added gold has an origin and the record keeps what its kind must carry; the stored record it answers with is the old one with the amendment in it. |
| `Annotations.AnnotationStore.Retire` | src/specpilot/annotation/store.py:159-203 | Only the current head of an item not yet retired can be retired, once, and no record moves; a missing record, a stale one and a retired item are each refused as such. |
| `Progress.ChainRoot` | src/specpilot/annotation/progress.py:263-279 | On any records the walk ends, and says how the chain ends: at its root, at a record naming a missing one, or never. |
| `Progress.OneEnd` | src/specpilot/annotation/progress.py:263-279 | A chain with a root has only that root and neither dangles nor is endless. |
| `Progress.TreesAreRooted` | src/specpilot/annotation/progress.py:263-279 | In a store of trees every chain ends at its root. |
| `Progress.GoldWithoutPooling` | src/specpilot/annotation/progress.py:323-325 | Over any heads of any records, gold equals pooled gold plus the gold still held from the roots. |
| `Progress.BuildProgress` | src/specpilot/annotation/progress.py:367-415 | On any records the report is refused if and only if an item has two heads or the chain of a head that counts has no root, with that fault; otherwise each level reports how many records no record names, of items not retired, how many per split and without adjudication, how many pairs of one with a gold clause, and how many of these its root lacks. |
| `Progress.ReportedGold` | src/specpilot/annotation/progress.py:323-325 | Over a store of trees no chain is refused, and gold less pooled gold is the distinct gold authors found before any audit. |

## Left out

- SQL text, connections and driver errors: a transaction is one atomic step with a fate.
- The policy-hash and route-disclosure tables of the ledger, and the per-reservation disclosure rows: they are written and never read by the modelled decisions.
- Non-contract fields on a reservation object: the model's values cannot carry any.
- Manifest resolution, authorization expiry and the clock inside the derivation: one boolean per call; version binding is one boolean per request.
- Token counters: an abstract function of the quote; two counters need not agree.
- asyncio timing and the one-second settling timeout: a cancelled write ends with any fate. Adapter exceptions outside `Exception`, such as interpreter shutdown, are not modelled.
- The reply body of a provider, its public error code, and the measured request size, which no cap reads.
- File descriptors, modes, inode and namespace checks, and the publication of a record file: an atomic create-only record set, reads that see the registry of one moment, and a correct shared/exclusive lock are assumed. The reads with which a create only refuses are part of `Manifests`, not moves of `FreezeRegistry`.
- The maximum size of a stored manifest or annotation, and records damaged outside the stores.
- The death of a process that holds a lease.
- A run id without a run row, the run's trace events and their sequence numbers.
- "At most one recovery per run": the transition rule does not enforce it, and the runtime that would is not part of this model.
- Tool durations, argument key lists and the parsing of tool results: a result is already told apart by its shape, texts and sections are opaque ids, and what the local store holds for a clause comes with the result.
- The tool plan validator as a step: plans are taken as already valid, as the collector takes them.
- Rounding in fused scores: scores are exact rationals; sorting is ordered insertion.
- Section titles, paths and anchors, and text flattening. Number labels are kept as a list of counters instead of a joined string.
- Label, verdict, origin and direction counts of the progress report, review statistics and the pooling audit: they add only further counters of the same kind.
- CLI, HTTP and MCP wrappers, ingestion, indexing, BM25 and embedding, retrieval metrics and the answer path.

# Verified models of the machine-learning applications

A Dafny 4.11 project beside the LDA, AdaGrad, matrix-factorisation and rate-search applications and two of the
command-line scripts.  `dafny verify dfyconfig.toml` checks all of it.

Eight parts of the repository are modelled, each in the form its source has: objects that change their fields are
classes, in-place array code works on arrays, and every such method is tied by its postconditions to a function
whose properties are then proved.

* **LDA with a private cache** (`SparseRow`, `SamplerCache`, `CacheHistory`, `Protocol`, `ProtocolSafety`, `Gibbs`,
  `FastDocSamplerVirtual`). Clients, several of which may share a client id as threads of one process, edit private
  copies of the word-topic table, collect unpushed changes, push rows and pull rows back, on plain, bipartite or
  two-replica schedules. The protocol is a state machine over N clients and a table; the main theorems say that counts
  are conserved, that no CHECK can fail in any run, and what a stale cached row still guarantees. The class edits the
  cache, the derived summary row and the sampling masses; its draws are proved to be those of the dense collapsed
  Gibbs conditional.
  The class is then run as a client of the protocol (`SamplerRuns`): it starts in the initial state and never stops.
* **LDA with a sparse index** (`FastDocSampler`, `FastDocTable`).  The older sampler keeps a sorted index by shifting an
  array and its masses by running sums; both are always what a rebuild would give.  Rows fetched while other owners
  update the table never spoil a draw.
* **AdaRevision** (`AdaRevision`).  Delayed gradients: telescoping, order independence with its exact condition, and
  what holds in every interleaving.  Also the rule used per matrix entry by `adagrad_mf.cpp`.
* **Work division** (`WorkPartition`, `AdaGradMF`, `BalancedSplit`).  Row-aligned ranges, why lock-free writes to the
  row factors are sound, and exactly when the arithmetic split of data over threads is a partition.
* **Interval search** (`IntervalSearch`).  A five-phase bracketing minimiser: invariants, accuracy, termination bounds.
* **Documents and corpus** (`Documents`, `Corpus`).  Serialized form, occurrence iterator, hand-out of documents.
* **cpplint** (`Brackets`, `NestingState`).  Bracket matching in both directions and the conditional nesting stack.
* **argparse** (`NargsPattern`, `ArgumentCounts`, `ArgumentLoop`).  The nargs patterns, their greedy matching, and the
  loop that shares out the command line, with the one ledger of calls and strings that a command line determines.
* `Sums` holds the facts about finite sums that the others use.

## Assumptions

* Reals are exact and integers unbounded, except where a width is part of a format (`Documents`) or of a check
  (`WorkPartition.PartitionWorkLoad`).  The random dart is any value in [0,1), a new topic any topic.  The AdaRevision
  and AdaGrad step sizes are arbitrary functions.
* Protocol: the table, or both halves of it under local sync, starts at the clients' initial counts; each pull follows
  the push with the same item and iteration; a fetched row carries no zero entries and holds all of the caller's own
  pushes and some prefix of the pushes of each other client (apps/lda/src/lda_engine.cpp:461-467 pushes before it pulls,
  apps/lda/src/lda_engine.cpp:87-127 fills the tables).
* `FastDocTable`: rows store no zero entries, and a fetched row holds every owner's initial counts and a prefix of its
  updates in the order sent.  An owner is whoever resamples a fixed set of documents, such as a process.
* `FastDocSampler`: the thread's own increments are visible in its summary row at once, and that row counts at least the
  document's tokens.
* A locked section is one atomic step.  A failed CHECK is a failed step or an early, unsuccessful return.
* `std::map` and `std::set` iterate in increasing order of topics.

## Where the code does not do what it is for

* The balanced split of `adarevision_l2_mt.cpp` is not always a partition: with an excess of two or more and full shares
  of two or more its third branch starts one item early (`BalancedSplit.CopiesOf`, `ExactIff`, `FiveOverFour`).
* Same-snapshot AdaRevision updates of mixed signs depend on their order (`AdaRevision.MixedSignsDisagree`), exactly
  when the peaks of the partial sums differ above the old z_max (`OrderMatters`).
* The older LDA sampler uses a negative mass exactly when the stored count of the token's topic in the fetched row is
  negative (`FastDocSampler.BucketIffNatural`, `NegativeEntry`): negative counts are read as zero before the token is
  taken out.  A row without an entry for the topic does no harm.  No view that holds a prefix of every owner's updates
  has a negative count, so all draws from such views are dense (`FastDocTable.FetchedDrawIsDense`); a view that skips
  an update may have one (`SkippedUpdate`).
* A real-valued objective that keeps falling is never bracketed by the interval search (`IntervalSearch.StillOpen`;
  `NeverBracketed` is the case f(x) = x).

## Model

| member | source | states |
|---|---|---|
| ProtocolSafety.NoCheckEverFails | apps/lda/src/fast_doc_sampler_virtual.cpp:82-86 | In every run of any number of clients (sampling, pushing, pulling in any interleaving, with any admissible stale view fetched) every enabled step completes: no CHECK of sampling or pulling fails |
| ProtocolSafety.Conservation | apps/lda/src/fast_doc_sampler_virtual.cpp:80-95 | At every state of every run, for each word, topic and used half, the table entry plus all clients' unpushed changes equals the number of tokens so assigned, and the table entry is non-negative |
| ProtocolSafety.HalvesAgree | apps/lda/src/fast_doc_sampler_virtual.cpp:371-401 | Under local sync both halves of the table hold the exact token counts of every word for which no client has anything pending |
| ProtocolSafety.CachedRows | apps/lda/src/fast_doc_sampler_virtual.cpp:405-458 | A cached count is the client's own tokens as they are now plus, for every other client, a non-negative amount that client had published when the row was fetched |
| ProtocolSafety.SingleClientTally | apps/lda/src/fast_doc_sampler_virtual.cpp:432-434 | With a single client the cached row is at every moment exactly the tally of its own tokens, which is what the background-change CHECK asserts |
| ProtocolSafety.DocumentSampled | apps/lda/src/fast_doc_sampler_virtual.cpp:75-310 | Resampling a whole document, whatever topics are drawn, keeps the protocol invariant |
| ProtocolSafety.DocumentNeverStops | apps/lda/src/fast_doc_sampler_virtual.cpp:83 | The topic of the next token of a document is always present in the cached row, so SampleOneDoc processes every token |
| SamplerRuns.StartedInit | apps/lda/src/fast_doc_sampler_virtual.cpp:314-368 | Whatever tokens the clients hold, the table filled with them and the caches read from it are an initial state of the protocol |
| SamplerRuns.Start | apps/lda/src/fast_doc_sampler_virtual.cpp:314-368 | buildGlobalCache on the filled table finds no non-positive count and leaves the class with the cache of that initial state |
| SamplerRuns.SampleDocument | apps/lda/src/fast_doc_sampler_virtual.cpp:44-311 | The class, run as a client of any invariant state, processes every token of a document and leaves an invariant state whose client it is again |
| SamplerRuns.PushRows | apps/lda/src/fast_doc_sampler_virtual.cpp:528-581 | The class's push is the client's Push step, batches included |
| SamplerRuns.PullRows | apps/lda/src/fast_doc_sampler_virtual.cpp:583-621 | The class's pull with the rows of any admissible views succeeds and is the client's Pull step |
| SamplerRuns.Exchange | apps/lda/src/lda_engine.cpp:461-467 | A push, any steps of other clients, and the pull that follows: no CHECK fails, and the state is invariant again |
| SamplerRuns.Interleaved | apps/lda/src/fast_doc_sampler_virtual.cpp:75-310 | However the steps of other clients fall between the tokens of a document, the client ends as if left alone |
| ProtocolSafety.StepKeeps | apps/lda/src/fast_doc_sampler_virtual.cpp:528-621 | Each Sample, Push and Pull step from a state satisfying the invariant completes and keeps it |
| ProtocolSafety.SampleChecksHold | apps/lda/src/fast_doc_sampler_virtual.cpp:83-120 | In an invariant state the removed topic exists and no remaining count of the row is non-positive |
| ProtocolSafety.PullChecksHold | apps/lda/src/fast_doc_sampler_virtual.cpp:415-454 | In an invariant state every fetched and every replaced row has positive counts only, and a lone client fetches exactly what it has cached |
| ProtocolSafety.SampleKeeps | apps/lda/src/fast_doc_sampler_virtual.cpp:80-95 | A Sample step keeps accounts, cached rows and the table |
| ProtocolSafety.PushKeeps | apps/lda/src/fast_doc_sampler_virtual.cpp:528-581 | A Push step keeps them: what leaves the deltas arrives in the table, row by row and half by half |
| ProtocolSafety.PullKeeps | apps/lda/src/fast_doc_sampler_virtual.cpp:583-621 | A Pull step keeps them: the fetched view holds all own pushes and a prefix of each other client's |
| ProtocolSafety.CachedCoversOwn | apps/lda/src/fast_doc_sampler_virtual.cpp:436-454 | A client's cached count is never below its own tokens, however late other pushes are seen; with one client it is equal |
| ProtocolSafety.TwoBatchesCount | apps/lda/src/fast_doc_sampler_virtual.cpp:571-580 | Any prefix of a push has delivered to a row of a half either nothing or all that was pending for it; the whole push delivers exactly that to the scheduled rows |
| ProtocolSafety.FetchedCount | apps/lda/src/fast_doc_sampler_virtual.cpp:408-421 | With nothing pending for the row, a fetched count is the client's own tokens plus what each other client had published in the view |
| Protocol.PushBatchesFit | apps/lda/src/fast_doc_sampler_virtual.cpp:383-399 | Every row pushed is a row of the table, in the right half |
| SamplerCache.RecordKeepsShape | apps/lda/src/fast_doc_sampler_virtual.cpp:84-95 | Recording a change keeps every cached row free of zero, negative and out-of-range entries while the count stays non-negative |
| SamplerCache.EvenRows | apps/lda/src/fast_doc_sampler_virtual.cpp:545-550 | The alternating schedule lists exactly the rows whose index plus parity is even |
| SamplerCache.OverwriteAt | apps/lda/src/fast_doc_sampler_virtual.cpp:457-458 | After a pull a row is the last one fetched for it, duplicates in the schedule included; other rows stay |
| SamplerCache.FlushShape | apps/lda/src/fast_doc_sampler_virtual.cpp:384-400 | Clearing the scheduled deltas leaves a well-shaped cache |
| CacheHistory.CachedRow | apps/lda/src/fast_doc_sampler_virtual.cpp:84-86 | After any sequence of recorded changes, pushes and pulls, duplicates in the schedules included, each cached row equals the row last fetched for it plus every change recorded since, pushed or pending |
| CacheHistory.PendingRow | apps/lda/src/fast_doc_sampler_virtual.cpp:87-95 | Each delta map holds exactly what was recorded since its row was last pushed, and never a zero |
| CacheHistory.MoveAllIsRun | apps/lda/src/fast_doc_sampler_virtual.cpp:75-310 | What resampling a document does to the cache is the run of its changes, two per token |
| Gibbs.BucketsAreDense | apps/lda/src/fast_doc_sampler_virtual.cpp:62-72 | For every topic q + r + s is (alpha+n_dk)(beta+n_wk)/(n_k+V*beta), and the three totals sum these weights |
| Gibbs.SearchBucket | apps/lda/src/fast_doc_sampler_virtual.cpp:198-206 | The scan of a bucket returns the topic whose sub-interval, closed on the right, holds the dart; the overflow fallback is unreachable |
| Gibbs.LandsUnique | apps/lda/src/fast_doc_sampler_virtual.cpp:200-206 | At most one topic is hit by a dart |
| Gibbs.ZeroMassOnlyAtEdge | apps/lda/src/fast_doc_sampler_virtual.cpp:221-229 | A topic without mass is chosen only by a dart exactly on the bucket's left edge |
| Gibbs.MasslessOnlyAtREdge | apps/lda/src/fast_doc_sampler_virtual.cpp:193-258 | Over all three buckets: a topic without mass in the bucket used is chosen only by a dart exactly on the left edge of the r bucket; it is then the first topic listed there, and the document has no token of it |
| Gibbs.PickBucket | apps/lda/src/fast_doc_sampler_virtual.cpp:193-258 | The three-way branch over q, r and s returns the one topic the dart chooses |
| Gibbs.Draw | apps/lda/src/fast_doc_sampler_virtual.cpp:188-263 | The same for a dart in [0,1) scaled by the total mass; none of the fallbacks is reached |
| Gibbs.DartLaw | apps/lda/src/fast_doc_sampler_virtual.cpp:193-258 | Off the bucket edges, the darts that choose a topic are exactly those in its three shares of the line |
| Gibbs.ShareLengths | apps/lda/src/fast_doc_sampler_virtual.cpp:187-263 | The lengths of a topic's three shares add up to its dense Gibbs weight |
| Gibbs.CountsAfterToken | apps/lda/src/fast_doc_sampler_virtual.cpp:101-292 | Taking a token out and putting it back under another topic changes the document counts at those two topics only |
| FastDocSamplerVirtual.Sampler.SampleOneDoc | apps/lda/src/fast_doc_sampler_virtual.cpp:44-311 | The cache ends as the old one with exactly these tokens moved; every new topic is the one its dart chooses from the dense conditional of that moment; it stops early only at a token whose topic is not cached; all derived fields agree with a rebuild |
| FastDocSamplerVirtual.Sampler.SampleToken | apps/lda/src/fast_doc_sampler_virtual.cpp:75-310 | One token: moved in the rows and all delta maps, drawn from the counts without it, derived fields kept |
| FastDocSamplerVirtual.Sampler.RemoveToken | apps/lda/src/fast_doc_sampler_virtual.cpp:80-99 | Fails exactly when the topic is not in the cached row; otherwise rows, deltas, summary row and s bucket follow |
| FastDocSamplerVirtual.Sampler.AddToken | apps/lda/src/fast_doc_sampler_virtual.cpp:264-279 | Rows, deltas, summary row and s bucket follow the new assignment |
| FastDocSamplerVirtual.Sampler.DrawTopic | apps/lda/src/fast_doc_sampler_virtual.cpp:111-263 | The drawn topic is the single one the dart chooses in the dense conditional of the cached counts |
| FastDocSamplerVirtual.Recount | apps/lda/src/fast_doc_sampler_virtual.cpp:100-109 | The document's q coefficients, r vector and r total stay those of a fresh tally |
| FastDocSamplerVirtual.BuildDocCache | apps/lda/src/fast_doc_sampler_virtual.cpp:50-72 | The document-wise cache is the tally of the document's topics with its masses |
| FastDocSamplerVirtual.BuildQ | apps/lda/src/fast_doc_sampler_virtual.cpp:111-125 | The q vector and its total are those of the dense formula over the word's stored topics |
| FastDocSamplerVirtual.SummaryBump | apps/lda/src/fast_doc_sampler_virtual.cpp:82-86 | A change of one row entry changes exactly one column sum, by the same amount |
| FastDocSamplerVirtual.SummaryReplace | apps/lda/src/fast_doc_sampler_virtual.cpp:510-515 | Replacing a row changes each column sum by the difference of the rows |
| FastDocSamplerVirtual.SummaryNonNegative | apps/lda/src/fast_doc_sampler_virtual.cpp:345-357 | Column sums of well-shaped rows are never negative, so no denominator vanishes |
| FastDocSamplerVirtual.Sampler.BuildGlobalCache | apps/lda/src/fast_doc_sampler_virtual.cpp:314-368 | Rows are those fetched, deltas empty, summary row and s bucket rebuilt; fails when a fetched count is not positive |
| FastDocSamplerVirtual.Sampler.Push | apps/lda/src/fast_doc_sampler_virtual.cpp:528-581 | The batches sent are those of the schedules of the configured mode, in order; pushed deltas are cleared, everything else stays |
| FastDocSamplerVirtual.Sampler.PushMany | apps/lda/src/fast_doc_sampler_virtual.cpp:478-492 | Each scheduled row is sent once with all of its pending change; a repeated row has nothing left to send |
| FastDocSamplerVirtual.Sampler.PushManyOther | apps/lda/src/fast_doc_sampler_virtual.cpp:461-475 | The same for the other half's delta maps |
| FastDocSamplerVirtual.Sampler.ItemRows | apps/lda/src/fast_doc_sampler_virtual.cpp:535-541 | The item's rows in order, wrapping at the end of the vocabulary |
| FastDocSamplerVirtual.Sampler.AlternateRows | apps/lda/src/fast_doc_sampler_virtual.cpp:545-550 | Every second row, by client or iteration parity |
| FastDocSamplerVirtual.Sampler.Pull | apps/lda/src/fast_doc_sampler_virtual.cpp:583-621 | The cached rows are overwritten by the fetched ones in schedule order; deltas stay; derived fields agree with a rebuild |
| FastDocSamplerVirtual.Sampler.PullMany | apps/lda/src/fast_doc_sampler_virtual.cpp:494-526 | The summed changes of all pulled rows bring the summary row to the new column sums, and the s bucket is recomputed from it |
| FastDocSamplerVirtual.Sampler.PullRow | apps/lda/src/fast_doc_sampler_virtual.cpp:403-459 | The row is replaced and the change map grows by new minus old for every topic; fails exactly when one of the row's CHECKs does |
| FastDocSampler.Sampler.SampleOneDoc | apps/lda/src/fast_doc_sampler.cpp:70-184 | Every new topic is in range and is the one drawn by the scans from the fetched row and the counts without the token, whatever that row holds; afterwards index, masses and coefficients equal a fresh ComputeAuxVariables, and the table updates are exactly one per reassigned token, in order |
| FastDocSampler.Sampler.ResampleToken | apps/lda/src/fast_doc_sampler.cpp:77-183 | One token, for any fetched row: counts move, and the new topic is the single one at which the scans of the q, r and s terms stop |
| FastDocSampler.Sampler.RemoveToken | apps/lda/src/fast_doc_sampler.cpp:84-107 | Counts drop by one and all derived state equals a rebuild; the shift stays inside the array |
| FastDocSampler.Sampler.AddToken | apps/lda/src/fast_doc_sampler.cpp:147-171 | Counts grow by one and all derived state equals a rebuild; the shift stays inside the array |
| FastDocSampler.Sampler.ComputeAuxVariables | apps/lda/src/fast_doc_sampler.cpp:197-219 | Index, sums and coefficients are those of the current counts |
| FastDocSampler.FillAux | apps/lda/src/fast_doc_sampler.cpp:197-219 | The loop's index is the sorted support and its sums are those of the vectors |
| FastDocSampler.Sampler.ComputeDocTopicVector | apps/lda/src/fast_doc_sampler.cpp:188-195 | The vector tallies the document's topics |
| FastDocSampler.FollowedIsRebuild | apps/lda/src/fast_doc_sampler.cpp:84-93 | Updating the sums and one coefficient incrementally gives exactly what recomputing all of them would |
| FastDocSampler.SameMembers | apps/lda/src/fast_doc_sampler.cpp:197-219 | A sorted index is determined by its members, so an index kept by shifting is the one a rebuild would make |
| FastDocSampler.SupportLoses | apps/lda/src/fast_doc_sampler.cpp:97-105 | When the last token of a topic goes, the rebuilt index is the old one without the element at the lower bound |
| FastDocSampler.SupportGains | apps/lda/src/fast_doc_sampler.cpp:161-169 | When the first token of a topic comes, the rebuilt index has it at the lower bound, and the array has room for it |
| FastDocSampler.LowerBound | apps/lda/src/fast_doc_sampler.cpp:99-100 | The position splits the index into smaller topics and the rest |
| FastDocSampler.ShiftLeft | apps/lda/src/fast_doc_sampler.cpp:101-103 | memmove: one element is closed over, everything else keeps its order |
| FastDocSampler.InsertAt | apps/lda/src/fast_doc_sampler.cpp:165-168 | memmove and store: one element is inserted, everything else keeps its order |
| FastDocSampler.Scan | apps/lda/src/fast_doc_sampler.cpp:229-236 | A scan returns the first listed topic at which the running mass reaches the dart, or the last one when none does, whatever the signs of the masses |
| FastDocSampler.PickTopic | apps/lda/src/fast_doc_sampler.cpp:221-275 | No empty list is indexed, a topic in range is returned, and it is the single one at which the scan of the bucket the dart falls into stops, whatever the fetched row holds |
| FastDocSampler.RemovableDrawIsDense | apps/lda/src/fast_doc_sampler.cpp:122-275 | When one token can be taken out of the fetched row (no entry for its topic, or one of at least one), the topic drawn is the choice of the dense conditional of the row so reduced |
| FastDocSampler.BucketIffNatural | apps/lda/src/fast_doc_sampler.cpp:122-139 | For a row without zero entries the q terms are non-negative and carry the whole mass if and only if the stored count of the token's topic is not negative |
| FastDocSampler.NegativeTerm | apps/lda/src/fast_doc_sampler.cpp:135-136 | Taking a token out of an entry below one gives its topic a negative mass |
| FastDocSampler.NegativeEntry | apps/lda/src/fast_doc_sampler.cpp:122-139 | A concrete stored row, with count minus one for the topic of the token, and its q mass of minus one |
| FastDocTable.ShownNatural | apps/lda/src/fast_doc_sampler.cpp:173-182 | Initial counts plus any prefix of an owner's updates are its token counts at an earlier moment, so they are never negative |
| FastDocTable.SentPrefix | apps/lda/src/fast_doc_sampler.cpp:173-182 | Any prefix of the updates sent is what some prefix of the resampled tokens sent, so a view never shows half a move |
| FastDocTable.DocumentSends | apps/lda/src/fast_doc_sampler.cpp:173-182 | The updates of SampleOneDoc are those of visiting the document's tokens in order, which makes it a stretch of an owner's history |
| FastDocTable.FetchedDrawIsDense | apps/lda/src/fast_doc_sampler.cpp:112-275 | Whatever prefix of each owner's updates the view holds, own updates included or not, the draw is the choice of the dense conditional of the fetched row |
| FastDocTable.DocumentIsDense | apps/lda/src/fast_doc_sampler.cpp:70-184 | With such rows every token of a document goes where its dart chooses in the dense conditional of that moment |
| FastDocTable.OwnTokenTakenOut | apps/lda/src/fast_doc_sampler.cpp:112-139 | When the view holds all updates of the token's owner, the reduced row counts exactly the owner's other tokens as they are now plus what the view shows of the others |
| FastDocTable.SkippedUpdate | apps/lda/src/fast_doc_sampler.cpp:173-182 | A concrete owner of whom a later update without an earlier one shows a negative count |
| FastDocSampler.MovesStep | apps/lda/src/fast_doc_sampler.cpp:173-182 | The table updates are exactly the change of the document's assignments, word by word and topic by topic |
| AdaRevision.Telescopes | apps/adagrad/src/adarevision_l2_mt.cpp:221-237 | Any number of updates applied in a row from one snapshot equal one batched step at the final rate, whatever the individual gradients |
| AdaRevision.RoundTelescopes | apps/adagrad/src/adarevision_l2_mt.cpp:221-248 | The same for distinct workers that all refreshed at the current state |
| AdaRevision.OrderMatters | apps/adagrad/src/adarevision_l2_mt.cpp:221-237 | Reordering same-snapshot updates never changes the gradient sum or z; the whole state agrees if and only if the clipped peaks of the partial sums do |
| AdaRevision.OneSignAnyOrder | apps/adagrad/src/adarevision_l2_mt.cpp:221-237 | Updates of one sign give the same final state in any order |
| AdaRevision.MixedSignsDisagree | apps/adagrad/src/adarevision_l2_mt.cpp:228-233 | Two orders of the same mixed-sign gradients: the final states are given in full, with z_max 5 and 2 and with weights at the rates of 5 and of 2 |
| AdaRevision.EveryInterleaving | apps/adagrad/src/adarevision_l2_mt.cpp:221-248 | In every interleaving of all workers G is the sum of the applied updates, z is one plus their squares plus twice every product of an update with one it had not seen, and z_max is at least z and one and never falls |
| AdaRevision.OneWorkerIsAdaGrad | apps/adagrad/src/adarevision_l2_mt.cpp:250-291 | With one worker g_bck is zero at every apply and the run is AdaGrad with z = z_max = 1 + sum of squares |
| AdaRevision.StepKeeps | apps/adagrad/src/adarevision_l2_mt.cpp:221-248 | Every step keeps the run invariant |
| AdaRevision.ModelWorker.ApplyOne | apps/adagrad/src/adarevision_l2_mt.cpp:225-235 | One coordinate changes exactly as the update rule says, the others not at all |
| AdaRevision.ModelWorker.ApplyUpdates | apps/adagrad/src/adarevision_l2_mt.cpp:221-240 | All coordinates of the shared arrays follow the update rule, and the pending gradients are zero afterwards |
| AdaRevision.ModelWorker.RefreshWeights | apps/adagrad/src/adarevision_l2_mt.cpp:242-248 | The worker's copy and snapshot are those of the shared state |
| AdaRevision.BatchedOnce | apps/adagrad_mf/src/adagrad_mf.cpp:463-479 | One further update extends a batched step: the retroactive correction moves what was applied to the new rate |
| WorkPartition.PartitionWorkLoad | apps/adagrad_mf/src/adagrad_mf.cpp:110-139 | Succeeds if and only if a valid partition exists, and returns it |
| WorkPartition.StartsUnique | apps/adagrad_mf/src/adagrad_mf.cpp:115-134 | The partition is unique: each start is forced by the one before |
| WorkPartition.RangesTile | apps/adagrad_mf/src/adagrad_mf.cpp:332-336 | Ranges are non-empty, follow one another and cover all entries; each entry lies in exactly one worker's range |
| WorkPartition.RowsExclusive | apps/adagrad_mf/src/adagrad_mf.cpp:122-134 | For row-sorted data entries of an earlier worker have strictly smaller rows, so no row is shared |
| WorkPartition.HistIndexInRange | apps/adagrad_mf/src/adagrad_mf.cpp:338-340 | Every L_hist_gradients_ index of a worker is inside what its constructor allocated |
| WorkPartition.LossesSum | apps/adagrad_mf/src/adagrad_mf.cpp:384-399 | The workers' squared losses add up to the loss of the whole matrix |
| AdaGradMF.Isolated | apps/adagrad_mf/src/adagrad_mf.cpp:495-524 | In every interleaving of all workers' element updates and synchronisations, a worker's own state and its rows of L are what it computes when it runs alone, given what it read of R |
| AdaGradMF.OrderIrrelevant | apps/adagrad_mf/src/adagrad_mf.cpp:495-524 | Two interleavings of the same per-worker work give the same L and the same workers |
| AdaGradMF.OthersInvisible | apps/adagrad_mf/src/adagrad_mf.cpp:513-519 | An update of another worker changes nothing this worker reads or writes |
| AdaGradMF.EmptyRowsStay | apps/adagrad_mf/src/adagrad_mf.cpp:513-519 | Rows of L without an entry are never written |
| AdaGradMF.UpdateComponents | apps/adagrad_mf/src/adagrad_mf.cpp:510-524 | The in-place loop gives every component the value that follows from the old vectors alone, the R gradient seeing the updated L |
| AdaGradMF.Worker.SgdElement | apps/adagrad_mf/src/adagrad_mf.cpp:495-525 | One entry: row of L, history row and pending R gradients change as the rule says, everything else stays; all indices are in range |
| AdaGradMF.Worker.constructor | apps/adagrad_mf/src/adagrad_mf.cpp:310-359 | The history covers the worker's rows and everything starts at zero |
| BalancedSplit.LoadRange | apps/adagrad/src/adarevision_l2_mt.cpp:157-179 | The three branches compute the range of a worker |
| BalancedSplit.SizesSum | apps/adagrad/src/adarevision_l2_mt.cpp:157-179 | Range sizes always sum to the number of items and differ by at most one |
| BalancedSplit.CopiesOf | apps/adagrad/src/adarevision_l2_mt.cpp:165-177 | Every item goes to exactly one worker, except that with an excess of two or more and full shares of two or more one item goes to two and the last item to none |
| BalancedSplit.ExactIff | apps/adagrad/src/adarevision_l2_mt.cpp:157-177 | The ranges are an exact partition if and only if W*c - n <= 1 or c <= 1, with c the rounded-up share |
| BalancedSplit.FiveOverFour | apps/adagrad/src/adarevision_l2_mt.cpp:173-177 | Five items over four workers: item 2 is handed out twice, item 4 never |
| IntervalSearch.TwoPointRun | apps/mlr/mlr_multi.cpp:231-247 | Whatever values come back, the known points stay strictly ordered; from the first answer on the centre is an evaluated point with the least value of all, and no evaluated point lies between it and its known neighbours |
| IntervalSearch.ThreePointRun | apps/mlr/mlr_multi.cpp:249-292 | The same from three ordered start points, from the start on |
| IntervalSearch.ConsumeTight | apps/mlr/mlr_multi.cpp:311-404 | One answer keeps order, the dip at the centre and the relation to all evaluated points |
| IntervalSearch.Accuracy | apps/mlr/mlr_multi.cpp:405-409 | For a strictly unimodal objective every bracket holds the minimiser, and when consume reports true the centre is within the threshold of it |
| IntervalSearch.BoundHolds | apps/mlr/mlr_multi.cpp:422-449 | For a strictly unimodal objective the bound getBound gives is above the next answer |
| IntervalSearch.TwoCallsHalve | apps/mlr/mlr_multi.cpp:371-403 | Two refinement calls at least halve the larger gap, whatever values come back |
| IntervalSearch.StaysBracketed | apps/mlr/mlr_multi.cpp:371-403 | Refinement never widens the larger gap |
| IntervalSearch.RefinementEnds | apps/mlr/mlr_multi.cpp:405-409 | A bracket with larger gap at most threshold * 2^n reports true from 2n answers on |
| IntervalSearch.OpeningStep | apps/mlr/mlr_multi.cpp:339-370 | An answer in an opening phase either closes the bracket with equal gaps or moves on by the same stride to a strictly lower centre |
| IntervalSearch.StillOpen | apps/mlr/mlr_multi.cpp:339-370 | The bracket is still open after n answers if and only if the objective fell over each of the n strides, so a real-valued objective that keeps falling is never bracketed |
| IntervalSearch.NeverBracketed | apps/mlr/mlr_multi.cpp:339-370 | A concrete objective, f(x) = x searched downwards from 1 and 0: no number of answers closes the bracket |
| IntervalSearch.OpeningEnds | apps/mlr/mlr_multi.cpp:339-370 | With natural values an open bracket closes within centre value + 1 answers, and the search ends 2n answers later |
| IntervalSearch.SearchEnds | apps/mlr/mlr_multi.cpp:311-410 | From two start points and natural values the search ends within min(start values) + 2 + 2n answers |
| IntervalSearch.IntervalSearchController.FromTwo | apps/mlr/mlr_multi.cpp:231-247 | Starts in initMiddle with the two points logged |
| IntervalSearch.IntervalSearchController.FromThree | apps/mlr/mlr_multi.cpp:249-292 | Starts in top, initBottom or initTop by where the least start value is |
| IntervalSearch.IntervalSearchController.Get | apps/mlr/mlr_multi.cpp:294-309 | Suggests and remembers the next point; the state is otherwise unchanged |
| IntervalSearch.IntervalSearchController.ConsumeValue | apps/mlr/mlr_multi.cpp:311-410 | Logs the answer, moves to the next state, and reports exactly when both gaps are within the threshold |
| Brackets.FindEndOfExpressionInLine | scripts/cpplint.py:1218-1239 | The first position after which the nesting is zero, or the nesting at the end of the line |
| Brackets.FindStartOfExpressionInLine | scripts/cpplint.py:1288-1312 | The last position at which the nesting is zero, or the nesting at the beginning of the line |
| Brackets.CloseExpression | scripts/cpplint.py:1242-1285 | Returns the place past the matching bracket over all lines; failure exactly when no bracket matches or the character opens nothing |
| Brackets.ReverseCloseExpression | scripts/cpplint.py:1315-1357 | Returns the matching opening bracket over all lines; failure exactly when there is none or the character closes nothing |
| Brackets.Inverse | scripts/cpplint.py:1242-1357 | A bracket is closed by another if and only if that one is opened by it |
| Brackets.CloseThenReverse | scripts/cpplint.py:1242-1357 | Reopening one before where closing ended returns the starting line and column |
| Brackets.ReverseThenClose | scripts/cpplint.py:1242-1357 | Closing where reopening ended returns one past the starting column |
| Brackets.SameBothWays | scripts/cpplint.py:1218-1312 | The forward and the backward notion of a match coincide |
| Brackets.OffsetUnique | scripts/cpplint.py:1269-1282 | Line and column correspond one to one to offsets in the whole text |
| NestingState.ElseIsInert | scripts/cpplint.py:1838-1892 | Well-nested lines between #else and #endif, further #elif and nested conditionals included, leave both stacks as if they were not there |
| NestingState.ElseIsInertInFile | scripts/cpplint.py:1838-1892 | The same anywhere in a file, with any lines around |
| NestingState.SavedStay | scripts/cpplint.py:1859-1892 | Well-nested lines leave every stack saved before them alone |
| NestingState.BlocksOnTop | scripts/cpplint.py:2008-2047 | Inside a block whose brace was seen, tokens only add blocks on top while no brace from before is closed |
| NestingState.BalancedLine | scripts/cpplint.py:1894-2047 | A line with balanced braces and no declaration leaves the nesting stack as it was |
| NestingState.NestingStack.UpdatePreprocessor | scripts/cpplint.py:1838-1892 | The object's two stacks change as the directive rule says |
| NestingState.NestingStack.Update | scripts/cpplint.py:1894-2047 | The whole line: directive, parentheses, namespaces, class, access and tokens in order |
| Documents.RoundTrip | apps/lda/src/document_word_topics.hpp:84-120 | A buffer that begins with the bytes of two documents begins with one document's: the bytes determine words and accumulated counts |
| Documents.WriteAndRead | apps/lda/src/document_word_topics.hpp:84-120 | Serialising a document and deserialising another from the same buffer gives equal words, accumulated counts and token count, and a valid document when the first was; the buffer may be larger than needed |
| Documents.Document.AppendWord | apps/lda/src/document_word_topics.hpp:130-138 | The bag of words grows by the word, as often as it occurs; earlier words and counts stay; the total wraps around like size_t, and the document stays a bag of words if and only if it does not |
| Documents.Document.InitAppendWord | apps/lda/src/document_word_topics.hpp:123-128 | An empty document |
| Documents.Document.SerializeDoc | apps/lda/src/document_word_topics.hpp:89-101 | Writes the serialized form in exactly SerializedDocSize bytes and nothing beyond |
| Documents.Document.DeserializeDoc | apps/lda/src/document_word_topics.hpp:104-120 | The document read is the one whose bytes are at the front of the buffer, with its token count |
| Documents.Document.RandomInitWordTopics | apps/lda/src/document_word_topics.hpp:74-81 | One topic in [0,K) per token |
| Documents.ExpandAt | apps/lda/src/document_word_topics.hpp:54-69 | A token belongs to the word in whose stretch of accumulated counts it lies |
| Documents.WordOccurrenceIterator.constructor | apps/lda/src/document_word_topics.hpp:163-168 | Starts at the first token, past words without occurrences |
| Documents.WordOccurrenceIterator.Next | apps/lda/src/document_word_topics.hpp:180-186 | Moves to the next token, whichever word it belongs to |
| Documents.WordOccurrenceIterator.End | apps/lda/src/document_word_topics.hpp:173-177 | True exactly when all tokens are passed |
| Documents.WordOccurrenceIterator.Word | apps/lda/src/document_word_topics.hpp:199-201 | The word that the bag of words spells at this token |
| Documents.Walk | apps/lda/src/fast_doc_sampler.cpp:191-193 | The walk visits every token once, in order, under its word and with its topic, and skips zero counts |
| Documents.NumberRoundTrip | apps/lda/src/document_word_topics.hpp:92 | Little-endian bytes give back the number |
| Corpus.RoundRobin | apps/lda/src/corpus.cpp:44-82 | Whatever mix of the two overloads threads call, call i of a work unit returns document i mod n while fewer than iters passes are complete and end() for ever after; the reporting overload signals exactly at the last document of each pass |
| Corpus.ExactShare | apps/lda/src/corpus.cpp:35-82 | A work unit hands out every document exactly iters times |
| Corpus.WorkUnits.RestartWorkUnit | apps/lda/src/corpus.cpp:35-42 | A new unit starts at the first document |
| Corpus.WorkUnits.GetOneDoc | apps/lda/src/corpus.cpp:44-61 | One locked call without report |
| Corpus.WorkUnits.GetOneDocReporting | apps/lda/src/corpus.cpp:63-82 | One locked call with report |
| NargsPattern.MatchIsGreediest | apps/caffe/scripts/argparse.py:2014 | A match splits the front of the pattern, no other split is greedier, and without a match there is no split |
| NargsPattern.MatchSuits | apps/caffe/scripts/argparse.py:2147-2190 | An action is never handed strings that its nargs does not allow: the number of arguments is right, options go only to the two kinds that take everything, and "--" never to an option |
| NargsPattern.OptionMatch | apps/caffe/scripts/argparse.py:2011-2028 | What is counted for an option is exactly the number its kind asks for, and there is an error exactly when too few arguments follow |
| NargsPattern.OptionPatterns | apps/caffe/scripts/argparse.py:2182-2187 | Taking "--" out of an option's pattern leaves these classes |
| ArgumentLoop.KnownArgs.ParseKnownArgs | apps/caffe/scripts/argparse.py:1905-1952 | The loop terminates; it succeeds exactly with a ledger that has come to the end with no positional left, and raises exactly at positionals left over or an option that cannot be read; calls made, extras and remaining positionals are those of the ledger, no more and no fewer |
| ArgumentLoop.OutcomeUnique | apps/caffe/scripts/argparse.py:1905-1952 | A command line either parses or raises, never both, and with one ledger only: which call gets which strings is determined by the strings |
| ArgumentLoop.LedgerUnique | apps/caffe/scripts/argparse.py:1905-1947 | Of any two ledgers of a command line, finished or not, the shorter begins the longer |
| ArgumentLoop.EachInOnePlace | apps/caffe/scripts/argparse.py:1905-1947 | When a command line parses, every index has exactly one place: as an option string, in the slice of exactly one call, or among the extras; and the positionals served are all of them, in order, each once |
| ArgumentLoop.CallsSuit | apps/caffe/scripts/argparse.py:1812-1903 | Every call of every legal piece has exactly its slice of the strings, and its nargs allows them; a call without a slice has no argument or the explicit one |
| ArgumentLoop.KnownArgs.ConsumeOptional | apps/caffe/scripts/argparse.py:1812-1882 | Adds the one piece the rule allows at this index: an unknown option to the extras, a known one with a call per combined flag and then exactly as many strings as its nargs matches; raises exactly when the option cannot be read |
| ArgumentLoop.KnownArgs.ConsumePositionals | apps/caffe/scripts/argparse.py:1889-1903 | Adds one piece: as many leading positionals as match together are called with the consecutive slices of the greedy match and leave the list; the others stay |
| ArgumentLoop.BuildPattern | apps/caffe/scripts/argparse.py:1765-1785 | The pattern has an 'O' exactly at the option indices, '-' at the first "--" and 'A' everywhere after it |
| ArgumentCounts.ReadingSpelled | apps/caffe/scripts/argparse.py:1812-1882 | Combined flags are spelled out: each further action is the one of the prefix character with the next character, all but the last take no argument, and the last takes the rest of the text or as many following strings as its nargs matches |
| ArgumentCounts.MatchArgumentsPartial | apps/caffe/scripts/argparse.py:2030-2045 | As many leading positionals as match together, with the group lengths of the greedy match of their joined patterns |
| ArgumentCounts.PartialUnique | apps/caffe/scripts/argparse.py:2030-2045 | There is exactly one such list of counts |
| ArgumentCounts.PartialSuits | apps/caffe/scripts/argparse.py:2030-2045 | Its counts cut the strings into consecutive slices that each action's nargs allows |

## Left out

- Floating-point rounding and NaN checks, log-gamma, sigmoid and square root values: reals are exact and rates abstract.
- The width of `int16_t` and `int32_t` counts and the wrap of token counters.
- Random generators, clocks, logging, statistics, file and database input and output, flags, thread start and join.
- The global tables kept under `FLAGS_safe_llh`, and the disabled slow checks of `SampleOneDoc`.
- Internals of the parameter server, `lda_engine.cpp` and the update scheduler: only the assumptions above are used, and any item is allowed.
- The error strings and the `std::stringstream` dumps of `pullRow`.
- FastDocSamplerVirtual.Sampler.SampleOneDoc: takes the words of the tokens as a sequence in iterator order instead of walking a document object; the walk is `Documents.Walk`.
- FastDocSampler.Sampler.SampleOneDoc: takes the fetched word rows as a sequence, one per token, and returns the table updates instead of sending them.
- Schedules written out twice in `push` and `pull` are one method each in the model.
- The gradient computation of the AdaRevision training loop: a gradient is any real; evaluation and loss output are not modelled.
- AdaRevision.ModelWorker.ApplyUpdates: the whole vector is one step, as under the lock; the run theorems are per coordinate.
- The retries of training epochs and barriers: a fast worker may apply before a slow one refreshes, and no global round is claimed.
- AdaGradMF.Isolated: reading R is an event with the values read; the shared R matrix itself follows the AdaRevision rule and is not repeated.
- Regularisation losses of the matrix-factorisation worker, whose row loop also skips the last row of each range (apps/adagrad_mf/src/adagrad_mf.cpp:403-411).
- BalancedSplit.LoadRange: only the index arithmetic, not the copying of labels and features; the test-data split repeats it.
- The outer searches over mu and decay in `mlr_multi.cpp`, and the printed form of the search log: entries hold the numbers.
- The default constructor of the interval search, whose empty phase makes every call an error.
- The truncation of token indices to 32 bits in the word-occurrence iterator.
- `Corpus::AddDoc`, `buildIterVector` and `GetDocById`; an empty corpus, whose first call is undefined.
- The regular expressions of cpplint: what they find in a line is part of the line. Messages, indentation and section checks of class and namespace blocks are left out.
- Aliasing of the nesting stacks: the source copies them deeply, so values are the same.
- NestingState.ElseIsInert: a line keeps its effect when lines before it are removed, so line numbers stored in blocks are not part of a block.
- In argparse, value conversion, conflicts between actions, required actions and groups, defaults, files of arguments, and how a string is recognised as an option: the recognition is a function of the string.
- ArgumentLoop.KnownArgs.ConsumeOptional: all ways to raise, the index errors of an empty explicit argument included, are one unsuccessful result, and an action that raises when it is called is not modelled.
- Siblings of modelled code: `cpp_lint.py`, `mf.cpp`, `adagrad_mt.cpp`, `adagrad_l2_mt.cpp`, `adagrad_l2_shared_mt.cpp`, `lr_l2_mt.cpp`.

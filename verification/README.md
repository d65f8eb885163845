# Verified models of the regime, registry, point-in-time data, cache and task-construction logic

Each module models one component of the repository and proves what that component is for. Operations that work by
changing state are classes or loops proved against functions of the state; the properties are lemmas about those
functions, over every input, every run or every reachable state.

* **Change-point detector** (`Nig`, `Bocpd`, `BocpdRuns`, `Segmentations`, `BocpdService`, `RegimeConfig`). The
  normal-inverse-gamma arithmetic is exact over the reals. Masses are linear instead of logarithmic and the density is
  an arbitrary positive function of degrees of freedom, location and squared scale. The filter is compared with an
  independent model that sums over all segmentations of the stream, on streams of any length.
* **Regime labels** (`RegimeLabels`). Percentiles by linear interpolation, also stated as counts of past values.
* **Artifact registry** (`HashRefs`, `RunIndex`, `ContentStore`, `Retention`, `RegistryModel`, `RegistryLedger`,
  `RegistryOrphans`, `RegistryWitness`, `RunRegistryStore`, `ArtifactRegistryService`). Digests are functions that do
  not collide on the byte strings a run stores; no more is asked of them, and a concrete run meets it. The registry,
  which reloads and flushes its index around every operation, refines a ledger of payloads.
* **Point-in-time data** (`DataViewModel`, `DataViewMeaning`, `DataViewService`, `UniverseLog`). Dates are integers,
  frames are lists of rows, sorting is a stable insertion sort.
* **Cache** (`CacheModel`, `CacheRuns`, `CacheOrder`, `CacheManager`, `Memo`, `FullCache`, `CacheWitness`). Every
  reading of the clock is a parameter. What the policies compare is tied to the operations of the run.
* **Folds and residual variance** (`Folds`, `ResidualVariance`). A shuffle is any permutation of a class's rows.
* **Task construction** (`SignalSurface`, `TaskBuilder`, `TaskRecord`). Parsing and printing of instants and the two
  digests are parameters; `SameIdIff` says what is asked of them for the two tasks it compares.

`Common`, `RealSeq` and `Ordering` hold shared results about options, sums and stable sorting.

## Where behaviour and intention part

* The last run-length bin is documented as merging the truncated hypotheses. It does, but the merged windows overlap,
  so from max_run_length observations on, and only then, its parameters weigh more observations than were ever seen
  (`BocpdRuns.OvercountsIff`, `BocpdRuns.LastListIsPool`).
* An update whose boundary index is bad fails after the filter has already advanced
  (`BocpdService.BOCPDRegimeService.Update`).
* The severity flag is documented as undefined for indices below the burn-in; it is also constantly False at the
  burn-in index itself (`RegimeLabels.SeverityCounts`).
* `RunRegistry.add_artifact` takes an empty role that the next reload drops (`RunRegistryStore.BindingSurvivesIff`).
* A cleanup stops half-way exactly when it would delete a registering run (`Retention.AbortsIff`,
  `RegistryWitness.CleanupStopsHalfway`), without losing a referenced blob (`RegistryLedger.GcSafety`). Blobs that a
  rebinding, a refused binding or such a cleanup leaves unreferenced are collected by no later cleanup until the same
  bytes are registered again (`RegistryOrphans.OrphanUnlessAdopted`).
* Seeding the universe while registering a frame ignores when a row became known
  (`DataViewService.SeedingNoLookaheadIff` says exactly when that shows, from whatever log). A listing seeded on the
  very date of a delisting has no effect, since the delisting outranks it.
* For a boundary index below -1 the volatility label reads the history from its end
  (`RegimeLabels.VolNoLookaheadIff`); no label is returned for such an index. The configured bucket method is hashed
  and stored but the labels are always by terciles.
* A full cache can refuse to overwrite a key it holds (`CacheRuns.SetThenGet`), and an overwrite it admits can cost
  another entry (`CacheRuns.OverwriteCost`). A full cache refuses every key it has never counted
  (`CacheRuns.UncountedIsRefused`); under the decorator, while its entries are live, only a key counted more often
  than the front entry was accessed displaces one (`FullCache.FullCacheChangesIff`). While all
  calls end within one TTL of the first and no result is None there is no such key (`Memo.WarmCacheIsFrozen`); a
  result of None, set again at each call, can evict even then (`FullCache.CachedNoneEvicts`), and later a key that
  expired and comes back can (`FullCache.ReturningKeyEvicts`). Nothing ever reports a failure to the circuit breaker,
  so it stays closed (`CacheRuns.RunStructure`).
* `_cross_validated_balanced_accuracy` itself does not check n_splits >= 2; its caller does
  (pysrc/meta_learning/aq09_ablation_harness.py:282-283). With one split every centroid is a mean of nothing and the
  score a constant (`Folds.CrossValidate`).
* One of the two final timestamp checks of the builder is dead and the other needs negative windows
  (`TaskBuilder.SupportCheckNeverFires`, `TaskBuilder.QueryCheckFiresIff`). Replay looks at neither the recorded key
  version nor what the id is derived from (`TaskRecord.ReplayTrustsTheId`).

## Model

| member | source | states |
|---|---|---|
| Nig.SequentialEqualsBatch | pysrc/meta/bocpd_service.py:40-72 | Folding the one-observation update over any list gives the batch posterior of its count, sum and sum of squares, for any prior with kappa0 > 0 |
| Nig.PosteriorIsTextbook | pysrc/meta/bocpd_service.py:40-72 | After n > 0 observations with mean m: kappa grows by n and alpha by n / 2, kappa mu is kappa0 mu0 + n m, and beta grows by half the sum of squared deviations from m and half of kappa0 n (m - mu0)^2 / (kappa0 + n) |
| Nig.RecoverSums | pysrc/meta/bocpd_service.py:51-72 | Recovering the sums inverts the batch formula for every positive count |
| Nig.SumsRoundTrip | pysrc/meta/bocpd_service.py:51-72 | From any sequential posterior the recovered sums are those of the observations and rebuild the same four parameters |
| Nig.OrderIrrelevant | pysrc/meta/bocpd_service.py:40-48 | Observation lists with the same multiset give the same posterior |
| Nig.MergeIsExact | pysrc/meta/bocpd_service.py:75-98 | Merging bins that are posteriors of lists gives exactly the posterior of the concatenated lists |
| Nig.MergeTail | pysrc/meta/bocpd_service.py:75-98 | The accumulator loop computes the batch posterior of the total recovered sums |
| Bocpd.GuardNotTaken | pysrc/meta/bocpd_service.py:122-143 | With positive kappa, alpha and beta no guard is taken for either observation model: the predictive is the density with 2 alpha degrees of freedom around mu and squared scale beta (kappa + 1) / (alpha kappa), which is positive |
| Bocpd.JointPositive | pysrc/meta/bocpd_service.py:211-233 | Every joint weight of a step is positive, so the normalising sum is never zero |
| Bocpd.StepConservesMass | pysrc/meta/bocpd_service.py:195-246 | Every update leaves strictly positive masses that add up to one, one bin longer up to max_run_length |
| Bocpd.TruncateConserves | pysrc/meta/bocpd_service.py:165-192 | Truncation conserves total mass, keeps positivity, and leaves min(size, limit) bins |
| Bocpd.TruncateEntries | pysrc/meta/bocpd_service.py:165-192 | Below the last index truncation changes no mass; the last index collects the masses from there on |
| Bocpd.ChangeProbabilityIsBayes | pysrc/meta/bocpd_service.py:224-246 | With masses m_i and bins p_i, and h the hazard rate: the change probability is h d(prior) sum m over h d(prior) sum m + (1 - h) sum d(p_i) m_i, d being the predictive density at x; with max_run_length = 1, where everything is folded into bin 0, it is one |
| Bocpd.TransitionMassBounds | pysrc/meta/bocpd_service.py:259-266 | 0 < change probability <= transition mass <= 1, monotone in transition_max_rl, equal to the change probability at 0 and to one once every bin is included |
| BocpdRuns.RunWindow | pysrc/meta/bocpd_service.py:146-192 | After any stream of t observations there are min(t + 1, M) bins, and bin i, unless it is the truncated last one, is the prior folded over the last min(i + 1, t) observations |
| BocpdRuns.EveryBinIsAPosterior | pysrc/meta/bocpd_service.py:122-192 | In every reachable state each bin is the posterior of a finite list drawn from the stream, no parameter is below the prior's, and no predictive guard is taken |
| BocpdRuns.LastBinOvercounts | pysrc/meta/bocpd_service.py:177-192 | Once t >= M the last bin's kappa counts 2M + (t - M)(M + 1) observations, always more than the t that were seen: the merge adds overlapping windows |
| BocpdRuns.OvercountsIff | pysrc/meta/bocpd_service.py:177-192 | The last bin's kappa counts more observations than were seen exactly when the stream has reached max_run_length |
| BocpdRuns.LastListIsPool | pysrc/meta/bocpd_service.py:177-192 | In closed form, what the truncated bin weighs is every stretch of max_run_length consecutive observations and the whole stream once more |
| BocpdRuns.PoolMultiplicity | pysrc/meta/bocpd_service.py:177-192 | How often each observation is weighed there, by its position: once, and once more for each such stretch containing it, with the count given outright |
| BocpdRuns.RunIsDistribution | pysrc/meta/bocpd_service.py:195-246 | After any stream the masses are positive and add up to one |
| BocpdRuns.BlindFilterReportsHazard | pysrc/meta/bocpd_service.py:195-246 | For a density that does not depend on the parameters, and max_run_length >= 2, the change probability after every non-empty stream is exactly the hazard rate |
| BocpdRuns.ContinueSplit | pysrc/meta/bocpd_service.py:195-246 | Processing xs and then ys from a reachable state is processing xs + ys |
| BocpdRuns.RunIsContinue | pysrc/meta/bocpd_service.py:407-418 | The run from the initial state is such a continuation, so every state of a run is reachable |
| Segmentations.AllCutsComplete | pysrc/meta/bocpd_service.py:195-246 | The reference model enumerates every way of cutting a stream into segments, each once |
| Segmentations.ExactStep | pysrc/meta/bocpd_service.py:207-236 | For whatever observations a run remembers, one more observation turns the enumeration's run-length weights (hazard rate times prior density for a cut, one minus it times posterior density for none) into the filter's joint weights over bins with that memory |
| Segmentations.FilterIsExact | pysrc/meta/bocpd_service.py:165-246 | On every stream, the filter's mass at each run length times the weight of all segmentations is the weight of those ending in that run length; the last index takes all from the truncation limit on. A segmentation weighs h d(x, prior) for each observation that begins a segment and (1 - h) d(x, posterior of what the run remembers) for each other one; from the limit on runs remember one pool, given in closed form and not by the recursion: every stretch of max_run_length observations and the whole stream |
| Segmentations.FilterIsBayes | pysrc/meta/bocpd_service.py:195-246 | On streams of at most max_run_length observations those pools are the runs' own observations, so in the same terms the filter is the posterior of the untruncated model |
| BocpdService.ExtendStats | pysrc/meta/bocpd_service.py:146-162 | The array-filling loop returns fresh arrays holding the prior updated by x followed by every old bin updated by x |
| BocpdService.TruncateRunLengthMass | pysrc/meta/bocpd_service.py:165-192 | On arrays: the state becomes the truncated state; within the limit the arguments themselves are returned, beyond it fresh arrays |
| BocpdService.BocpdUpdate | pysrc/meta/bocpd_service.py:195-246 | The whole update on arrays equals the specified step, with masses summing to one and the change probability of the new masses |
| BocpdService.BOCPDRegimeService.constructor | pysrc/meta/bocpd_service.py:370-377 | A new service is not initialised and has seen nothing |
| BocpdService.BOCPDRegimeService.Initialize | pysrc/meta/bocpd_service.py:379-419 | An empty history is an error that changes nothing; otherwise the prior is the estimated one (next row) and the state is that of the empty stream |
| BocpdService.PriorIsEstimated | pysrc/meta/bocpd_service.py:385-405 | What is configured is used as configured; otherwise mu0 is the mean of the first min(n, max(1, burn-in)) values and beta0 is alpha0 - 1 times the mean of squares less the square of the mean, but at least 1e-8 |
| BocpdService.BOCPDRegimeService.Update | pysrc/meta/bocpd_service.py:421-510 | Before initialisation an error that changes nothing; otherwise the state advances by one step and the count by one even when the label computation then fails, which it does exactly for an index outside the log-RV history. The label returned is the one the new masses call for (next row) |
| BocpdService.LabelMeaning | pysrc/meta/bocpd_service.py:440-510 | State cp exactly when mass[0] over the total is at least cp_threshold; transition exactly when it is below that and the share of run lengths 0..transition_max_rl is at least transition_threshold; stable otherwise. The boundary flag is cold start exactly before the burn-in index, and otherwise names the same case; the two shares, the trend, the volatility label and the severity flag are recorded; a bad index in the volatility label is the first error |
| BocpdService.BOCPDRegimeService.Feed | pysrc/meta/bocpd_service.py:421-510 | Any number of updates continues the state over all their observations |
| BocpdService.BOCPDRegimeService.Snapshot | pysrc/meta/bocpd_service.py:512-528 | A snapshot holds fresh copies of the state, with count, prior and configuration hash |
| BocpdService.BOCPDRegimeService.FromSnapshot | pysrc/meta/bocpd_service.py:530-546 | Refused exactly when the configuration hash differs; otherwise a service with copies of the snapshot's arrays, prior and count, whatever their lengths, in the snapshot's state when they are aligned |
| BocpdService.ResumeAgrees | pysrc/meta/bocpd_service.py:421-546 | Split a stream anywhere, snapshot, restore and let both services continue: same posterior, statistics and count as never stopping, and the snapshot's arrays still hold what they held |
| BocpdService.FeedBoth | pysrc/meta/bocpd_service.py:421-546 | Two separate services in one state stay in one state when fed the same observations |
| BocpdService.LabelNoLookahead | pysrc/meta/bocpd_service.py:441-470 | For every boundary index, a label that is returned depends on no history value after it; only the kind of error for an index below -1 can |
| BocpdService.BadBoundaryHasNoLabel | pysrc/meta/bocpd_service.py:455-462 | An update yields no label exactly when the boundary index is outside the log-RV history |
| BocpdService.RestoreUnder | pysrc/meta/bocpd_service.py:512-546 | A snapshot taken from a service is accepted under a configuration exactly when the content hashes agree; unless those two configurations collide, exactly under the service's own; and the restored service is in the same state |
| RegimeLabels.ThresholdCounts | pysrc/meta/regime_labeler.py:121-126 | With h = (n - 1)p/100: at or above the percentile implies at least floor(h) + 1 past values at most the current one; below it at least n - ceil(h) are greater; for whole h the first count is an if and only if |
| RegimeLabels.SeverityCounts | pysrc/meta/regime_labeler.py:78-126 | For an index past the burn-in the flag says whether the value there is at least the percentile of those before it, with the same counts; errors exactly outside the history, and False up to and including the burn-in index |
| RegimeLabels.TrendMeaning | pysrc/meta/regime_labeler.py:28-44 | Given a full window up to the index, the trend is up exactly when the sum of its log returns exceeds epsilon and down exactly when it is below minus epsilon; without one it is flat |
| RegimeLabels.VolMeaning | pysrc/meta/regime_labeler.py:46-67 | For an index inside the history: with at least three values since the burn-in (or, during it, since the start) low exactly when the value is at most their lower tercile, high exactly when it is above that and at least the upper one, else medium; with fewer, medium |
| RegimeLabels.VolOutside | pysrc/meta/regime_labeler.py:46-67 | Past the end of the history the label is an index error unless fewer than three values are left; at -1 it is medium; below -1 the slice and the index are both counted back from the end, with the same comparison |
| RegimeLabels.PercentileIsLinear | pysrc/meta/regime_labeler.py:46-126 | In any ascending arrangement s of n values, at p with 100 k <= p (n - 1) <= 100 (k + 1) the percentile is s[k] + (p (n - 1) / 100 - k)(s[k + 1] - s[k]) |
| RegimeLabels.PercentileMonotone | pysrc/meta/regime_labeler.py:46-67 | The linearly interpolated percentile is monotone in p |
| RegimeLabels.TercilesOrdered | pysrc/meta/regime_labeler.py:61-67 | p33 <= p67, so the low and high tests are in the right order |
| RegimeLabels.PercentileOrderFree | pysrc/meta/regime_labeler.py:46-67 | A percentile depends only on the multiset of values |
| RegimeLabels.NoLookahead | pysrc/meta/regime_labeler.py:28-126 | For every boundary index trend and severity, and from -1 on the volatility label, are unchanged by any change after it; none fails for an index inside the history |
| RegimeLabels.VolNoLookaheadIff | pysrc/meta/regime_labeler.py:46-67 | The volatility label depends on nothing after the boundary index exactly when that index is at least -1 |
| RegimeLabels.NegativeIndexReadsHistory | pysrc/meta/regime_labeler.py:55-61 | For each index below -1, two concrete histories that agree up to it and get different volatility labels |
| HashRefs.ParseIffShow | pysrc/ops/hashing/envelope.py:261-283 | Parsing accepts exactly the wire forms of well-formed references and inverts them, domains containing colons included |
| HashRefs.RegistryRefs | pysrc/ops/hashing/envelope.py:113-156 | A content or attestation reference is well formed exactly with 64 lower-case hexadecimal digits, the last of which may be a newline instead |
| HashRefs.ShowInjective | pysrc/ops/hashing/envelope.py:174-182 | Distinct well-formed references have distinct wire forms |
| RunIndex.ArtifactsRoundTrip | pysrc/artifact_registry/run_registry.py:345-431 | A list of artifacts survives encode and decode exactly when each has a role and well-formed hashes; the others are dropped |
| RunIndex.RunRoundTrip | pysrc/artifact_registry/run_registry.py:345-431 | The same for a whole record; an encoded record always decodes to some record, never to a skipped entry |
| RunIndex.ReloadIsIdentity | pysrc/artifact_registry/run_registry.py:268-307 | Reloading the flushed index is the identity exactly when every record is stored under its own id and is storable |
| RunIndex.DecodeRunIff | pysrc/artifact_registry/run_registry.py:345-412 | An index entry is read exactly when it is an object with one of the three status names; it keeps that status, its id and its dates, and other malformed fields are read as empty |
| RunIndex.DecodeArtifactIff | pysrc/artifact_registry/run_registry.py:345-412 | A stored artifact is read exactly when it has a non-empty role and a reference that is the wire form of a well-formed one, which it then has |
| ContentStore.PutKeepsConsistent | pysrc/artifact_registry/cas.py:90-117 | If the digests do not collide among the byte strings stored, storing one more keeps every blob under its digest and every alias pointing at its blob, keeps everything held, and is refused only for payloads that have no canonical form |
| ContentStore.PutMeaning | pysrc/artifact_registry/cas.py:90-117 | On any store: without canonical bytes nothing happens; otherwise the digest is occupied afterwards, by the bytes unless something was there; the attestation is pointed at them, or, exactly if it points elsewhere, left alone and reported as a conflict after the blob is stored |
| ContentStore.HeldIsFound | pysrc/artifact_registry/cas.py:132-226 | Whatever was stored verifies, is read back byte for byte, and its attestation resolves to its own reference |
| ContentStore.LocalCAS.Put | pysrc/artifact_registry/cas.py:90-117 | The class operation realises the store function, alias conflicts included |
| ContentStore.LocalCAS.Delete | pysrc/artifact_registry/cas.py:160-173 | Removes exactly that blob, says whether it existed, and leaves the alias index alone |
| Retention.PlanPartition | pysrc/artifact_registry/registry.py:128-145 | Planned and retained partition the runs; retained are exactly the pinned runs and the min(keep, n) newest: every other run has a creation time that comes before in character order, or the same time and an id that comes before |
| Retention.PlannedFacts | pysrc/artifact_registry/registry.py:135-139 | The plan lists exactly the runs not retained, without repeats, each id coming before the next in character order |
| Retention.StrLeqIffBelow | pysrc/artifact_registry/registry.py:133-139 | The string comparison used for sorting holds exactly for equal strings and those with, at the first difference, the smaller character or nothing left |
| Retention.CleanupIsFixpoint | pysrc/artifact_registry/registry.py:128-145 | With unchanged pins, planning again on what was retained retains all of it and plans nothing |
| RegistryLedger.StepRefines | pysrc/artifact_registry/registry.py:56-166 | Begin, register, complete, fail and cleanup, aborted cleanups included, keep the store in step with a ledger that knows no hashes: per run, its state and the last payload of each role |
| RegistryLedger.RunRefines | pysrc/artifact_registry/registry.py:56-166 | So does every sequence of operations whose stored bytes do not collide |
| RegistryLedger.ResolveAgrees | pysrc/artifact_registry/registry.py:88-117 | Resolving in any store in step with a ledger gives exactly the ledger's answer, error for error |
| RegistryLedger.ResolveReadsLedger | pysrc/artifact_registry/registry.py:88-117 | After any operations, resolving reads the ledger |
| RegistryLedger.ResolveReturnsLastRegistered | pysrc/artifact_registry/registry.py:71-117 | After any operations: a run that is gone or not COMPLETE is an error; a COMPLETE run answers each role with the validated payload of the last registration accepted for it, through rebinding, other runs and any number of cleanups; and a role is missing exactly when none was accepted |
| RegistryModel.ResolveMeaning | pysrc/artifact_registry/registry.py:88-117 | On any store, a tampered one included: resolving gives a product exactly when the run is COMPLETE, its first artifact of the role has a stored blob with that digest and an attestation, if any, that leads to it, and the blob parses and validates to that product |
| RegistryModel.TransitionMeaning | pysrc/artifact_registry/run_registry.py:119-260 | Binding, finalizing and deleting: an unknown run and one in the wrong state are the errors, with which is which; an accepted transition dates the record and changes nothing else of the index |
| RegistryModel.BindMeaning | pysrc/artifact_registry/run_registry.py:119-155 | Binding replaces the first artifact of the role in place, or appends one |
| RegistryLedger.GcSafety | pysrc/artifact_registry/registry.py:128-166 | After any operations, each indexed run has one artifact per role and each artifact's blob is in the store, verifies, and agrees with its attestation |
| RegistryLedger.FinalizedNeverChanges | pysrc/artifact_registry/run_registry.py:119-178 | A finalized record is never altered by any operation except one that begins a run with the same id; it can only disappear, and only in an applied cleanup |
| RegistryLedger.FinalizedForever | pysrc/artifact_registry/run_registry.py:119-178 | Through any later operations that begin no run of its id, a finalized record is as it was or gone, and once gone stays gone |
| RegistryLedger.ReachableIsStorable | pysrc/artifact_registry/run_registry.py:268-307 | The reload before every operation is the identity in every reachable store |
| RegistryLedger.CompletedReport | pysrc/artifact_registry/registry.py:146-166 | Dry run and applied run report the same plan, and a completed pass deletes all of it |
| RegistryModel.ReportMeaning | pysrc/artifact_registry/registry.py:128-176 | The report, reference by reference: planned are those of planned runs and of no retained run, retained those of retained runs, deleted those planned whose blob was there; a negative number to keep is refused before anything else |
| RegistryModel.HeaderMeaning | pysrc/artifact_registry/registry.py:168-170 | A run counts as pinned by its metadata exactly when "pinned" is there with a value other than null, false, zero or an empty string, list or object |
| RegistryLedger.CompletedRuns | pysrc/artifact_registry/registry.py:154-158 | A completed pass leaves exactly the retained runs, each unchanged |
| RegistryLedger.RemovedBlobs | pysrc/artifact_registry/registry.py:140-159 | A completed pass removes exactly the existing blobs referenced by a planned run and by no retained run |
| RegistryLedger.AbortedCleanup | pysrc/artifact_registry/registry.py:154-159 | A pass stopped by a registering run has deleted the planned runs before it, keeps that run, and touches no blob |
| RegistryLedger.SecondCleanup | pysrc/artifact_registry/registry.py:128-166 | After a completed pass a second one with the same pins plans no runs and no blobs and changes nothing |
| Retention.AbortsIff | pysrc/artifact_registry/registry.py:154-158 | A pass stops half-way exactly when some run it does not retain is still registering |
| RegistryOrphans.OrphanUnlessAdopted | pysrc/artifact_registry/registry.py:71-166 | A stored blob that no run refers to stays so through any one operation except, exactly, an accepted registration of bytes with its digest; no cleanup collects it |
| RegistryOrphans.OrphansStay | pysrc/artifact_registry/registry.py:128-166 | So through any later operations it stays stored and unreferenced until such a registration |
| RegistryOrphans.RefusedPayloadIsOrphan | pysrc/artifact_registry/registry.py:77-79 | A registration refused at binding still stores its bytes; they are an orphan exactly when nothing referred to them |
| RegistryOrphans.ReboundPayloadIsOrphan | pysrc/artifact_registry/run_registry.py:119-155 | Rebinding a role orphans the old bytes exactly when the new ones have another digest and no other artifact refers to the old ones |
| RegistryOrphans.AbortedCleanupOrphans | pysrc/artifact_registry/registry.py:154-159 | An aborted cleanup orphans exactly the stored blobs to which no surviving run refers |
| RegistryWitness.SoundRunResolves | pysrc/artifact_registry/registry.py:56-117 | A concrete hashing and run (begin, two registrations of one role, complete) that meet every assumption of the run theorems and resolve to the second payload |
| RegistryWitness.CleanupStopsHalfway | pysrc/artifact_registry/registry.py:128-166 | A concrete run on which a cleanup deletes a completed run, stops at a registering one and leaves the first one's blob an orphan |
| RegistryWitness.CleanupKeepsTheLater | pysrc/artifact_registry/registry.py:128-166 | A concrete run on which a cleanup that keeps one run keeps the later one with its blob, although its id comes first, and deletes the other with its blob |
| RunRegistryStore.RunRegistry.Load | pysrc/artifact_registry/run_registry.py:268-291 | Memory becomes what the index file decodes to |
| RunRegistryStore.RunRegistry.BeginRun | pysrc/artifact_registry/run_registry.py:103-117 | Reload, add a REGISTERING record, flush |
| RunRegistryStore.RunRegistry.Bind | pysrc/artifact_registry/run_registry.py:119-155 | The scan-and-replace loop binds the role in a REGISTERING run, replacing an earlier binding in place; unknown and finalized runs are errors that leave the file alone |
| RunRegistryStore.RunRegistry.Finish | pysrc/artifact_registry/run_registry.py:157-178 | REGISTERING becomes COMPLETE or FAILED once; every other transition is an error |
| RunRegistryStore.RunRegistry.GetRun | pysrc/artifact_registry/run_registry.py:180-210 | COMPLETE runs are visible, the other states only with their flag |
| RunRegistryStore.RunRegistry.Delete | pysrc/artifact_registry/run_registry.py:246-260 | Unknown and REGISTERING runs are refused; otherwise the record is gone from memory and file |
| RunRegistryStore.BindingSurvivesIff | pysrc/artifact_registry/run_registry.py:119-155 | A registering run accepts any binding, and the binding survives the next reload exactly when it has a role and well-formed references; an empty role is accepted and lost |
| ArtifactRegistryService.ArtifactRegistry.RegisterPayload | pysrc/artifact_registry/registry.py:71-80 | Stores, then binds, provided the stored bytes collide with none stored before; succeeds exactly when the ledger accepts, and the blob is then readable |
| ArtifactRegistryService.ArtifactRegistry.FinishRun | pysrc/artifact_registry/registry.py:82-86 | Succeeds exactly on a REGISTERING run |
| ArtifactRegistryService.ArtifactRegistry.ResolveRole | pysrc/artifact_registry/registry.py:88-117 | Returns exactly what the ledger holds and changes nothing |
| ArtifactRegistryService.ArtifactRegistry.Cleanup | pysrc/artifact_registry/registry.py:128-166 | The sorting and the two deletion loops realise the specified pass, report and errors included |
| ArtifactRegistryService.ArtifactRegistry.DeleteRuns | pysrc/artifact_registry/registry.py:154-158 | Deletes runs in order and stops with an error at the first one still registering |
| ArtifactRegistryService.ArtifactRegistry.DeleteBlobs | pysrc/artifact_registry/registry.py:159-159 | Deletes every listed blob and reports those that existed |
| UniverseLog.ActiveIff | pysrc/data/universe.py:76-97 | A symbol is active at T exactly when some listing dated by T has no delisting on or after its date up to T |
| UniverseLog.MembersIff | pysrc/data/universe.py:99-112 | The members at T are exactly those symbols |
| UniverseLog.MembersNoLookahead | pysrc/data/universe.py:99-112 | Logs with the same events up to T have the same members at T, whatever their order and later events |
| UniverseLog.Universe.MembersAsOf | pysrc/data/universe.py:99-112 | The loop computes that set |
| UniverseLog.Universe.EffectiveStateAt | pysrc/data/universe.py:86-97 | Active exactly when some listing is in force; the deciding event is the latest of the symbol by T, a delisting before a listing of the same date, then the entry made first; there is none exactly when no event of the symbol is dated by T |
| UniverseLog.Universe.Register | pysrc/data/universe.py:52-60 | Appends a listing and changes nothing else |
| DataViewModel.NoLookahead | pysrc/data/dataview.py:135-220 | as_of(T) on any registration history, staleness errors included, equals as_of(T) on the history with every row of valid_time > T or knowledge_time > T removed before registration |
| DataViewModel.AnchorIsGreatest | pysrc/data/dataview.py:222-287 | The anchor is a row of the symbol with both dates at most T, and every such row has a smaller valid date, or the same and a knowledge date no greater; as T grows the anchor's pair of dates never decreases |
| DataViewModel.OrderedIsStable | pysrc/data/dataview.py:222-240 | Rows with equal keys keep the order in which they were stored |
| DataViewModel.ChunkFacts | pysrc/data/dataview.py:142-143 | A stored chunk is a permutation of the frame, ascending by knowledge date and then valid date, rows with equal dates in frame order |
| DataViewModel.ForwardFillMeaning | pysrc/data/dataview.py:56-79 | A FORWARD field is the value of a row of the symbol with both dates at most T such that every such row with a later valid date, or the same and a later knowledge date, is null; it is null exactly when all are |
| DataViewMeaning.AsOfMeaning | pysrc/data/dataview.py:185-287 | as_of(T) returns an answer exactly when it is what the stored rows mean, so the reading determines it: an error exactly when a requested symbol with visible rows has a requested FAIL field that no observation at most ttl days old supplies, and then that of the first such symbol and field; otherwise one snapshot for each such symbol in order, dated by its anchor, each cell the anchor's value under REJECT, the latest non-null one under FORWARD, NaN where WARN covers a missing or stale one, ties going to the row stored first |
| DataViewMeaning.CellMeaning | pysrc/data/dataview.py:240-287 | The same for one cell, with which error it is |
| DataViewMeaning.CellUnique | pysrc/data/dataview.py:240-287 | A cell's meaning admits only one outcome |
| DataViewModel.FieldValuesMeaning | pysrc/data/dataview.py:240-287 | A snapshot holds exactly the requested non-reserved fields, each with its own outcome, or else the error of one of them |
| DataViewService.SeededMembership | pysrc/data/dataview.py:144-161 | From any event log, a symbol is active at T after seeded registrations exactly when it was before, or some frame's first row of it, whenever that became known, is valid by T with no delisting from that date to T |
| DataViewService.SeedingNoLookaheadIff | pysrc/data/dataview.py:144-161 | From any event log, the seeded universe at T ignores rows unknown at T exactly when, for every symbol not active anyway, the rows known at T seed it exactly when all rows do |
| DataViewService.SeedsWithoutDelists | pysrc/data/dataview.py:144-161 | For a symbol never delisted, rows seed it by T exactly when one of them is valid by T |
| DataViewService.SeedingLooksAhead | pysrc/data/dataview.py:144-161 | Concrete input on which it does not: valid on day 1, known on day 5, already a member on day 2 |
| DataViewService.SeedingHidesRelisting | pysrc/data/dataview.py:144-161 | Concrete input the other way: an early row still unknown at T moves the seed date before a delisting and hides the relisting that the known rows give |
| DataViewService.DataView.RegisterSource | pysrc/data/dataview.py:100-161 | A rejected frame changes nothing; an accepted one appends its sorted chunk and, if asked, seeds the universe |
| DataViewService.FrameErrorMeaning | pysrc/data/dataview.py:110-133 | A frame is accepted exactly when it has rows, the symbol column, a symbol with a character other than white space in every row, and both date columns; the first of these that is missing is the error |
| DataViewService.RowsOf | pysrc/data/dataview.py:135-141 | Row for row the stored dates, symbol and cells are those of the frame |
| DataViewService.SeedingAppends | pysrc/data/dataview.py:144-161 | Seeding only appends fixture-seed listings, each of a stripped symbol of the frame on the earliest valid date that symbol has there |
| DataViewService.DataView.SnapshotAsOf | pysrc/data/dataview.py:185-220 | The loop over symbols computes the specified snapshots or the first staleness error |
| DataViewService.DataView.ResolveSnapshot | pysrc/data/dataview.py:222-287 | The loop over fields computes one symbol's snapshot |
| DataViewService.CheckSymbols | pysrc/data/dataview.py:40-53 | Finds the symbol-identity error that the specification names, or none |
| CacheRuns.StepStructured | pysrc/ops/caching.py:437-589 | Every operation keeps both containers on the same keys, the size bound, access counts within frequencies, and LRU order or FIFO/LFU agreement; a get adds exactly one hit or miss |
| CacheRuns.RunStructure | pysrc/ops/caching.py:437-589 | So does every sequence of operations under a non-decreasing clock, and the circuit is never open |
| CacheRuns.VictimIsRight | pysrc/ops/caching.py:467-481 | In any state the LRU victim has the oldest access time of all cached keys, the LFU victim the fewest accesses, and all keys but the FIFO victim are listed after it; what the order of the list means is in the next rows |
| CacheOrder.EvictedIsRight | pysrc/ops/caching.py:467-481 | Over every run, an unexpired entry that a set loses is the right one. FIFO: the operation by which it last came into the cache is earlier than that of any other unexpired entry, and an overwrite of an entry that stays brings nothing in. LRU: the operation that last used it is earlier. LFU: fewer operations used it from its last set on, or as many and it came in earlier |
| CacheOrder.KeysInOrder | pysrc/ops/caching.py:491-576 | Over every run the dictionary lists its keys by the operation that brought them in and, under LRU, the access list by the operation that last used them |
| CacheOrder.AdmittedIff | pysrc/ops/caching.py:437-451 | Over every run a set finds room, or is admitted exactly when its key was used by more operations than one entry was since it was set: under LRU the entry whose last use is earliest, otherwise the one that came in first |
| CacheOrder.CountersCountUses | pysrc/ops/caching.py:491-576 | Over every run a key's frequency is the number of its hits and admitted sets, and an entry's access count that number from its last admitted set on |
| CacheOrder.EnteredIs | pysrc/ops/caching.py:467-576 | The index used above is that of the last operation which brings the key in: an admitted set of a key that is absent once expired entries and the victim are gone |
| CacheOrder.UsedIs | pysrc/ops/caching.py:491-576 | Likewise the last operation that uses the key: a hit or an admitted set |
| CacheOrder.GetMeaning | pysrc/ops/caching.py:491-532 | A get is a hit exactly when the circuit is closed, the key is cached, unexpired at both readings of the clock (at the first only, without a base TTL), and of the version asked for or any; a hit returns the value and counts once for entry and key, anything else returns None and counts for neither |
| CacheOrder.GetKeys | pysrc/ops/caching.py:491-532 | What a get leaves: every unexpired entry but the one it finds expired itself |
| CacheOrder.SetMeaning | pysrc/ops/caching.py:534-576 | An admitted set writes value, version, one access and its time; it expires after the TTL given, or after the base TTL (300 when missing or zero) over 1 + volatility; no other entry changes, and a refused set changes nothing |
| CacheWitness.FirstInGoesFirst | pysrc/ops/caching.py:467-576 | A concrete FIFO run: a key that was used twice, was dropped and returns is admitted into a full cache; the older entry goes and the newer one is still served |
| CacheRuns.EntryComesFromSource | pysrc/ops/caching.py:491-576 | Every cached entry holds the value and version of the last admitted set of its key since it last left the cache |
| CacheRuns.GetReturnsSource | pysrc/ops/caching.py:491-532 | A get returns None or that value, and only for a matching version |
| CacheRuns.SetThenGet | pysrc/ops/caching.py:534-576 | A set is readable at once exactly when it was admitted or the same value was already there |
| CacheRuns.OverwriteCanBeRefused | pysrc/ops/caching.py:437-451 | Concrete run in which a full cache refuses to overwrite its own key and keeps answering with the old value |
| CacheRuns.SetKeys | pysrc/ops/caching.py:534-576 | The keys after any set: unchanged if refused; else the unexpired ones, less the policy's victim if the cache is still full, plus the key |
| CacheRuns.OverwriteCost | pysrc/ops/caching.py:534-576 | Overwriting a held key costs another unexpired entry exactly when the set is admitted into a cache full of unexpired entries and the victim is not the key itself; the cache then ends one short of full |
| CacheRuns.UncountedIsRefused | pysrc/ops/caching.py:437-451 | A full cache refuses every key that was never counted, whatever the clock, the policy and the TTL |
| FullCache.FullCacheChangesIff | pysrc/ops/caching.py:702-724 | One decorated call on a cache full of entries that outlive it: an absent key displaces one exactly when its result is valid and it was counted more often than the entry at the front was accessed; a cached value changes no keys; a cached None is set again and costs another entry exactly when that set is admitted and the victim is not the key itself |
| FullCache.ReturningKeyEvicts | pysrc/ops/caching.py:702-724 | Concrete run: a key called twice, expired and replaced comes back and evicts its live replacement |
| FullCache.CachedNoneEvicts | pysrc/ops/caching.py:702-724 | Concrete run within one TTL: the second call of a function that gives None evicts another entry |
| CacheManager.EnhancedCacheManager.Lookup | pysrc/ops/caching.py:491-532 | The get method realises the specification and keeps the structure |
| CacheManager.EnhancedCacheManager.Put | pysrc/ops/caching.py:534-576 | The set method realises the specification: admission before cleanup, then eviction, then the write |
| CacheManager.EnhancedCacheManager.EvictOne | pysrc/ops/caching.py:467-481 | Drops exactly the policy's victim, which over runs is as stated above, from both containers |
| CacheManager.EnhancedCacheManager.RemoveExpired | pysrc/ops/caching.py:483-489 | Drops exactly the expired entries from both containers |
| CacheManager.EnhancedCacheManager.Admitted | pysrc/ops/caching.py:437-451 | A full cache admits a key only if it is more frequent than the front of the access list was accessed |
| CacheManager.EnhancedCacheManager.UpdateCircuitBreaker | pysrc/ops/caching.py:453-465 | Five consecutive failures open the circuit, each recording its time; a success more than 60 seconds after the last failure closes it |
| CacheManager.EnhancedCacheManager.Discard | pysrc/ops/caching.py:578-582 | Drops one key from both containers |
| CacheManager.EnhancedCacheManager.DiscardPattern | pysrc/ops/caching.py:584-588 | Drops every key with the prefix from both containers |
| Memo.TransparentIffKeySound | pysrc/ops/caching.py:676-729 | The decorated pure function returns what the plain one returns, on every call of every sequence, exactly when calls with one key and a servable result agree, or the TTL is negative |
| Memo.SoundKeyIsTransparent | pysrc/ops/caching.py:702-724 | With a sound key, in particular an injective one, caching is invisible through any evictions and expiries |
| Memo.CollisionAnswersWrong | pysrc/ops/caching.py:697-724 | Two arguments under one key: the second call is answered with the first one's result, or computed afresh when the TTL is negative |
| Memo.NegativeTtlIsTransparent | pysrc/ops/caching.py:483-532 | Under a negative TTL every entry is past its expiry by the next call, so every call computes |
| Memo.WarmCacheIsFrozen | pysrc/ops/caching.py:437-451 | A corollary over whole runs: while all calls end within one TTL of the first and none gives None, nothing is ever evicted and a full cache's key set never changes |
| Memo.Wrapper.CallThrough | pysrc/ops/caching.py:702-724 | The wrapper method realises the specified call and returns the plain result whenever the key is sound |
| RealSeq.OnePassIsVariance | pysrc/models/tabular.py:54-76 | Mean of squares minus square of the mean equals the mean squared deviation from the mean, hence is never negative |
| ResidualVariance.ResidualVarianceByChunks | pysrc/models/tabular.py:54-76 | For any row count and positive chunk size the chunk loop gives the variance of all residuals, so the clamp at zero changes nothing |
| Folds.FoldsPartition | pysrc/meta_learning/aq09_ablation_harness.py:97-106 | Over all folds every row index occurs exactly once and nothing else occurs, whatever the shuffles |
| Folds.FoldsDisjoint | pysrc/meta_learning/aq09_ablation_harness.py:97-106 | A row in one fold is in no other |
| Folds.FoldsBalanced | pysrc/meta_learning/aq09_ablation_harness.py:97-106 | A fold holds floor(m / n) rows of a class of m, plus one in the first m mod n folds, so any two folds differ by at most one |
| Folds.EveryFoldCovers | pysrc/meta_learning/aq09_ablation_harness.py:86-106 | With n_splits >= 2 and enough rows, every class occurs in every test fold and in every training complement |
| Folds.OneSplitLeavesNoTraining | pysrc/meta_learning/aq09_ablation_harness.py:97-106 | With one split the only fold holds every row, so no class has a training row |
| Folds.BuildFolds | pysrc/meta_learning/aq09_ablation_harness.py:97-106 | The dealing loops build exactly those folds |
| Folds.NearestCentroid | pysrc/meta_learning/aq09_ablation_harness.py:108-129 | The loop returns the first class whose centroid is at least distance from the row; a NaN centroid of the first class is never improved on, and one of another class never chosen |
| Folds.DistanceIs | pysrc/meta_learning/aq09_ablation_harness.py:121-127 | The squared distance of two rows is the sum of their squared lengths less twice their inner product |
| Folds.CentroidBalances | pysrc/meta_learning/aq09_ablation_harness.py:113-118 | In every coordinate the rows add up to as many times their centroid |
| Folds.BalancedAccuracy | pysrc/meta_learning/aq09_ablation_harness.py:131-145 | The loops compute the mean recall over the classes that occur, NaN when none does |
| Folds.RecallsMeaning | pysrc/meta_learning/aq09_ablation_harness.py:131-145 | The recalls are, in class order, those of the classes that occur: the number of the class's positions that are predicted right over the number of its positions |
| Folds.ScoreInUnit | pysrc/meta_learning/aq09_ablation_harness.py:131-145 | A fold's score lies in [0, 1], skips no class, and is one exactly when every row is predicted right |
| Folds.ScoreFold | pysrc/meta_learning/aq09_ablation_harness.py:147-158 | Each fold's score is the balanced accuracy, on its own rows, of centroids that are means of the other rows; from two splits on none is a mean of nothing |
| Folds.OneAnswerScore | pysrc/meta_learning/aq09_ablation_harness.py:131-145 | Answering one class throughout scores one over the number of classes |
| Folds.CrossValidate | pysrc/meta_learning/aq09_ablation_harness.py:79-159 | Fewer than two classes, a class smaller than n_splits, and then n_splits below one are the errors; otherwise the mean of the folds' scores, which lies in [0, 1]; with one split it is one over the number of classes, whatever the features |
| SignalSurface.AcceptsIff | pysrc/meta_learning/dynamic_k_contract.py:132-179 | The validator accepts exactly the 64-slot surfaces with named active slots, empty inactive slots, distinct active names and the right active count |
| SignalSurface.FirstComplaint | pysrc/meta_learning/dynamic_k_contract.py:132-179 | Which complaint it is: the width, then the first slot that does not fit its mask, then a repeated name, then the count |
| SignalSurface.RepeatIff | pysrc/meta_learning/dynamic_k_contract.py:171-175 | The cardinality test finds a repeat exactly when two active slots share a name |
| TaskBuilder.IdentityIff | pysrc/meta_learning/task_generator.py:138-169 | The checks before the timestamps pass exactly on sound identity fields and surfaces |
| TaskBuilder.IdentityFaultOrder | pysrc/meta_learning/task_generator.py:138-169 | Which complaint comes first: horizon, lengths, slot number, regime id, regime class, version, no active slot, surface |
| TaskBuilder.OrderAndRepeatsDoNotMatter | pysrc/meta_learning/task_generator.py:173-174 | Reordering, repeating or rewriting support and query timestamps, in another zone for instance, gives the same result, task or error |
| TaskBuilder.ZonesDoNotMatter | pysrc/meta_learning/task_generator.py:173-174 | Writing the timestamps as another zone's clocks show them, offset included, gives the same result |
| TaskBuilder.EarlierChecksOrder | pysrc/meta_learning/task_generator.py:181-232 | Which temporal complaint comes first, read off the instants themselves: a timestamp that does not parse, an empty set, a shared instant, a boundary other than the last support, a query too close to some support, support before t0, query after t1 |
| TaskBuilder.BuildAcceptsIff | pysrc/meta_learning/task_generator.py:115-272 | For a digest that is not blank, the builder succeeds exactly when the identity fields are sound and the timestamps fit a layout: support up to the boundary, query after it and past purge plus embargo, all inside [t0, t1] |
| TaskBuilder.BuiltTaskIsLaidOut | pysrc/meta_learning/task_generator.py:181-272 | A built task's printed sets are the ascending instants of such a layout and its boundary is its last support timestamp; horizon, embedding, slots and mask are the caller's, the names are stripped, the active count is the number of active slots, and the id is the digest of regime id, t0, t1 and surface hash run together |
| TaskBuilder.SupportCheckNeverFires | pysrc/meta_learning/task_generator.py:234-239 | The final per-timestamp support check can never be the error |
| TaskBuilder.QueryCheckFiresIff | pysrc/meta_learning/task_generator.py:240-245 | The final query check is the error exactly on inputs that pass all earlier checks with a query before the last support; never with non-negative windows |
| TaskBuilder.NegativeWindowsReachTheQueryCheck | pysrc/meta_learning/task_generator.py:205-245 | Concrete input with a negative purge window on which it is the error |
| TaskBuilder.SameIdIff | pysrc/meta_learning/task_generator.py:60-74 | Two built tasks whose digests do not collide share an id exactly when they agree on stripped regime id, t0, t1 and signal surface, although the message has no separators; support, query, horizon and class play no part |
| TaskBuilder.DistinctIdsExist | pysrc/meta_learning/task_generator.py:60-74 | Two concrete tasks and an environment that meet what this asks and have different ids |
| TaskRecord.RoundTripIff | pysrc/meta_learning/task_generator.py:293-360 | Replaying a record gives back what was recorded exactly when its surface is valid and its identity fields are already normalised |
| TaskRecord.ReplayAcceptsIff | pysrc/meta_learning/task_generator.py:319-360 | Replay accepts exactly the records that have every field it reads with its type, sound names and a sound surface; the key version and the surface description are not among them; missing lists and wrong widths are told apart |
| TaskRecord.BuiltTaskRoundTrips | pysrc/meta_learning/task_generator.py:293-360 | Every task the builder returns satisfies that, so its record always replays to it |
| TaskRecord.ReplayIsIdempotent | pysrc/meta_learning/task_generator.py:319-360 | Whatever replay returns is recorded and replayed to itself |
| TaskRecord.ReplayTrustsTheId | pysrc/meta_learning/task_generator.py:319-360 | Replay reads neither the key version nor anything the id is derived from: another version changes nothing, another recorded id is returned as it is |

## Left out

- Floating point: reals throughout, densities and log1p as parameters, linear masses for log masses. Square roots
  (standard deviations of residuals and of scores) are left at their squares, distances are compared squared.
- Run-length mode, expectation and entropy, label ids, timestamps and the regime-class projections of the label record.
- NaN inputs.
- Memo.WarmCacheIsFrozen: one TTL from the first call and functions that never return None; beyond that `FullCache.FullCacheChangesIff` is the statement, one call at a time.
- BocpdService.BOCPDRegimeService.Update: a service restored from arrays of different lengths, which the source also lets through, is not followed further.
- Files, directories, fsync and atomic replacement: an index write is an assignment and never fails, although `_flush`
  swallows OSError. Run directories and materialised products are not modelled; an aborted cleanup also removes the
  directory of the registering run it then refuses to delete.
- Reference sets hold references where the source holds their wire strings; `HashRefs.ShowInjective` says these agree.
- Trial counters, `put_bytes`, the attestation index file, media types other than the default.
- Hash functions and the canonical JSON form (section 3.2 of RFC 8785): functions that do not collide on the byte
  strings in question (`Hashing.Sound`); what a collision would do is not followed.
- Fresh run ids: a parameter, so a colliding id overwrites the record, as the dictionary would.
- Records are values rebuilt at each reload, so aliasing between a returned record and a stored one is not captured.
- Index files the encoder never wrote are decoded as far as status, roles and hashes go; other types of value in a
  string or size field are not modelled. The sorted tuples of a cleanup report that come from sets are sets.
- Missing dates, renamed or duplicate temporal columns, dtype effects of concatenation, and the glob lookup of field
  policies (a parameter). `Strip` knows blank, tab, newline and carriage return only.
- Cache latency counters, asynchronous wrappers, compression, the Redis coordinator, the persistent cache, key hashing
  and the separate `ttl_cache` decorator. Values are identities: mutation of a cached value is not captured.
- The random generator (a shuffle is any permutation), the HMAC, and predictors that are not row-wise.
- Folds.CrossValidate: the standard deviation of the scores is not returned; with no feature columns the mean of no rows is taken for NaN as well, which makes the same choices.
- TaskRecord.RoundTripIff: records are maps over an enumeration of their keys; fields of types that the encoder never writes are one error.
- NaT, ambiguous local times, and timestamps with a resolution other than nanoseconds.
- `build_fixed_slot_surface_from_sparse_slots`, the manifest lowering, and the compositional regime-id grammar: each
  would add easy members only.

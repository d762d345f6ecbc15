# SLO and alerting core: a Dafny model

The repository manages service-level objectives (SLOs) and alerting rules. This project models its
logic in six parts and proves what each is for.

1. **Sharing recording groups.** SLOs whose indicators have the same fingerprint share one recording
   group on the ruler. Creating, updating and deleting an SLO touches three stores in turn — reference
   counts, ruler, saved objects — and each call may fail. `DedupProtocol` is the step machine in which
   operations on different SLOs, failing calls and the garbage collector interleave; `DedupSafety`,
   `DedupRuns` and `DedupResults` prove what every step and every run keeps and which interleavings break
   it. `SloLifecycle` holds the three stores and the service as classes; every call to a store meets a
   fate that is fixed beforehand and left open, and a ghost trace makes each method a run of the protocol.
   `RefCounter` shows that one counter, changed by optimistic retries, behaves atomically, and what its
   unconditional deletion loses. `SloRepair` is the repair of a drifted SLO.
2. **The PromQL builder.** `PromqlBuilder` prints a query model and parses it back (`DelimScan` is the
   quote-aware scan under the parser); `PromqlLiterals`, `PromqlRoundTrip` and `PromqlInverse` prove that
   the two undo each other, and `PromqlSound` that the parser accepts only texts that spell its result.
3. **Fingerprint and rule generator.** `Fingerprint` is what the fingerprint hashes, `SliQueries` the
   generated queries with their meaning on a metric store, `FilterText` the white space a fingerprint
   folds away, `FingerprintSound` the soundness of sharing, `RuleValue` what a rule evaluates to on a store
   of events or of a histogram, `RuleText` the text of the shared rules. `LeBounds` and `Histogram` are
   latency bounds and buckets. `Windows`, `RuleGroups`, `RuleMeaning`, `RuleClosure` and `RuleNames` are the
   two ways of generating rules, and `AlertMeaning` is when their alerts fire and what they tell.
4. **The look-back clause.** `PplLookback` puts a sliding time window into a PPL query and finds it again;
   `PplLookbackExact` proves exactly when it is found; `PplForm` is the form around it.
5. **Concurrency, caching, listing.** `WorkerPool`, `StatusCache`, `SloStore`, `Listing`, `Base64Url`,
   `FilterHash`.
6. **Bracket checks.** `Brackets` (stack) and `CustomPromql` (counters).

`Options`, `Text`, `Decimal` and `Sorting` are shared vocabulary.

What the model takes as given:

- Hashes (`sha256` of a fingerprint input, the 8-character rule suffix) are injective; JSON text is a
  codec whose reader undoes its writer.
- A document save that throws wrote nothing. At most one operation is in flight per SLO id, because the
  version check reads and then saves. An SLO is updated, deleted and repaired in the workspace and for
  the datasource it was created with, and a new SLO's id is fresh.
- The status aggregator answers one status per document, in order, or rejects.
- An outside call has one of three outcomes: it took effect; it failed and did nothing; it failed although
  it took effect. Loops over a JavaScript set run in any order.
- Latency thresholds and bucket bounds are whole nanoseconds, the grid of `toFixed(9)`. Surrounding white
  space of a PromQL expression means nothing.

Where the code does less than its comments say, the code is kept and the exact condition is proved:

- Recording groups of one fingerprint evaluate alike but are not byte-equal. They are exactly when
  dimensions are listed in the same order and, for availability, the trimmed filters are written alike; for
  a raw custom expression exactly when its surrounding white space is the same too (`RuleText.SameTextIff`;
  `x` and ` x` share a fingerprint).
- `perRangeBoundsUnder` selects a bound one nanosecond above a threshold of a second or more.
- A taken reference can lose its count exactly when it goes through a counter that the collection pass under
  way is about to remove (`DedupResults.QuietIsExact`).
- With calls that succeed or fail cleanly, a count can go wrong or a counted group go missing exactly when a
  reference is taken on a group that is not on the ruler and that another operation still misses, or on a
  group under collection that is not deleted yet or whose counter will be removed
  (`DedupResults.SafeIsExact`).
- A counter is what its completed changes add up to exactly while no deletion meets one that is not zero
  (`RefCounter.NothingLostIff`); the code deletes without looking again.
- A cursor walk repeats page 500 for ever on a longer listing; an invalidated status can be written back by a
  call that started earlier; a clause in a field with a backquote, or after an unclosed quote, is not
  recovered; the listing's own cut ignores an order by name.
- A label value that the PromQL parser reads is printed as it was exactly when it uses no escape but those of
  a backslash and of a quote (`PromqlSound.ValueKeptIff`); an escaped line end changes.
- The bracket counters and the builder's scan differ on single-quoted literals, and on an escape that reaches
  over a line end inside a literal.

## Model

| member | source | states |
|---|---|---|
| DedupSafety.StepKeepsInv | common/slo/slo_lifecycle_service.ts:284-407 | every step of every operation, with any outcome, that takes no reference through a counter the collection pass is about to remove keeps: each count is its owners plus what leaked, operation and document agree, a counter to be removed is at zero, a document's alert group is on the ruler unless a delete tore it |
| DedupSafety.IncrementGood | common/slo/slo_lifecycle_service.ts:318-343 | taking a reference moves count and ownership together; a throw that took effect is a leak |
| DedupSafety.UndoGood | common/slo/slo_lifecycle_service.ts:284-308 | each rollback decrement gives up exactly one owned reference or leaks it |
| DedupSafety.ReleaseGood | common/slo/slo_lifecycle_service.ts:679-701 | each decrement after an update or a delete likewise |
| DedupSafety.SaveGood | common/slo/slo_lifecycle_service.ts:667-674 | saving hands the held references to the document and takes over those it drops; no key changes its number of owners |
| DedupSafety.DropDocGood | common/slo/slo_lifecycle_service.ts:811-834 | deleting the document hands its references to the operation that releases them |
| DedupSafety.CollectionStep | server/services/slo/slo_reconciler.ts:139-226 | a step of a collection pass changes no count, no document and no operation, and keeps the invariant |
| DedupRuns.NoUndercount | common/slo/slo_lifecycle_service.ts:284-407 | in every interleaving, with any failures, that takes no reference through a counter about to be removed, a count equals documents claiming the fingerprint plus operations holding it plus leaks, so it is never short |
| DedupRuns.NeverUnderflows | common/slo/slo_service_types.ts:138-142 | no decrement the service issues ever meets a count of zero |
| DedupRuns.CarefulRun | common/slo/slo_service_types.ts:117-143 | reliable calls, and no reference taken where `DedupResults.SafeIsExact` says it can go wrong, keep counts exact and groups present or about to be built by the sole owner, over whole runs |
| DedupResults.CarefulRunsShare | common/slo/slo_lifecycle_service.ts:311-361 | in such runs a counted fingerprint has its group on the ruler or is missed by exactly the one operation that counts it |
| DedupResults.WholeOperations | common/slo/slo_lifecycle_service.ts:554-635 | between whole operations and sweeps, every count is the number of claiming documents and every fingerprint counted in any workspace has its group |
| DedupResults.Sharers | common/slo/slo_lifecycle_service.ts:84-140 | with exact counts, the count less one is the number of other SLOs that share the group |
| DedupResults.AlertGroupsStay | common/slo/slo_lifecycle_service.ts:364-401 | in every run a saved document's alert group is on the ruler, unless a delete took it and then failed |
| DedupResults.CollectedUnderHolder | server/services/slo/slo_reconciler.ts:160-220 | whenever a reference is taken through a counter under collection, before or after the group is deleted, the collector can leave its holder with a count of zero |
| DedupResults.QuietIsExact | server/services/slo/slo_reconciler.ts:160-220 | a step can lead the collector to a lost count if and only if it takes a reference through a counter of the pass under way |
| DedupResults.CollectedUnderHolderIsReachable | server/services/slo/slo_reconciler.ts:100-220 | a failed create, a pass over its counter and a second create reach that situation |
| DedupResults.DeletedUnderHolder | server/services/slo/slo_reconciler.ts:186-192 | a reference taken on a group under collection that is not deleted yet can lose the group it then builds |
| DedupResults.PeerLeftBehind | common/slo/slo_lifecycle_service.ts:343-361 | whenever a peer joins a group that is not on the ruler while another operation still has to build it, or is undoing a build that failed, the peer can be left counted on a group nobody builds |
| DedupResults.SafeIsExact | common/slo/slo_lifecycle_service.ts:311-361 | from a state where all is right, a reliable step can lead to a wrong count or a missing group if and only if it takes a reference in one of these three ways |
| DedupResults.PeerLeftBehindIsReachable | common/slo/slo_lifecycle_service.ts:311-361 | two creates of one indicator reach the situation in which the second is left behind |
| SloLifecycle.RuleRefStore.IncrementRef | common/slo/slo_service_types.ts:124-137 | one more reference or none; reports zero exactly when the count was zero |
| SloLifecycle.RuleRefStore.DecrementRef | common/slo/slo_service_types.ts:138-142 | one reference less, never below zero, or nothing |
| SloLifecycle.SloService.TakeReferences | common/slo/slo_lifecycle_service.ts:311-361 | succeeds exactly when no call throws; counts each new fingerprint once and leaves its group on the ruler where nothing counted it; on failure reports what to undo: those are counted once more, another only if its own increment took effect and threw |
| SloLifecycle.SloService.Rollback | common/slo/slo_lifecycle_service.ts:284-309 | each reference taken is given back once, unless its own decrement threw; every other count, the documents, groups and alert groups are as they were |
| SloLifecycle.SloService.Persist | common/slo/slo_lifecycle_service.ts:364-401 | alert group, then document; succeeds exactly when neither call throws; on failure no document changes |
| SloLifecycle.SloService.Release | common/slo/slo_lifecycle_service.ts:679-701 | each dropped fingerprint is counted exactly once less, unless its own decrement threw; nothing else changes |
| SloLifecycle.SloService.CreateDedup | common/slo/slo_lifecycle_service.ts:254-407 | succeeds if and only if no call throws; then one more document, each fingerprint counted once more, groups and alert group there; failure: documents unchanged, no alert group unless deleting it threw, every count as before unless one of its own calls threw |
| SloLifecycle.SloService.UpdateDedup | common/slo/slo_lifecycle_service.ts:531-706 | succeeds if and only if no call but a decrement throws; then document replaced, added fingerprints counted, dropped ones released; failure: document unchanged, every count as before unless one of its own calls threw |
| SloLifecycle.SloService.TearDown | common/slo/slo_lifecycle_service.ts:811-814 | alert group first, then document; succeeds exactly when neither call throws; the document goes on failure only if deleting it threw |
| SloLifecycle.SloService.DeleteDedup | common/slo/slo_lifecycle_service.ts:795-840 | succeeds if and only if no call but a decrement throws; then document and alert group gone, each fingerprint released once unless its decrement threw, recording groups kept; failure releases nothing |
| SloLifecycle.SloService.Collect | server/services/slo/slo_reconciler.ts:158-222 | calls nothing while any workspace counts the group; otherwise, unless a call throws, deletes the group and its stale counters; changes no count |
| SloLifecycle.ServiceNeverUndercounts | common/slo/slo_lifecycle_service.ts:254-407 | between calls of the service no count is below the documents that claim it |
| SloLifecycle.ServiceShares | common/slo/slo_lifecycle_service.ts:531-706 | while no call half-succeeded, counts are exact and counted groups are on the ruler |
| RefCounter.StepKeepsInv | server/services/slo/slo_rule_ref_store.ts:274-425 | a snapshot whose version is still current is current, over all interleavings of callers |
| RefCounter.StepIsAtomic | server/services/slo/slo_rule_ref_store.ts:274-425 | each step is one atomic increment or decrement with the result its caller gets, or an unconditional deletion of the whole count, or leaves the value alone |
| RefCounter.WriteTakesEffect | server/services/slo/slo_rule_ref_store.ts:334-367 | a write reaches the store exactly when nothing changed since the read; against another version it is retried, three times at most; against a deleted counter it throws |
| RefCounter.UnderflowIffSpent | server/services/slo/slo_rule_ref_store.ts:369-393 | in every run, a decrement is told of an underflow exactly when every completed increment was given back by a decrement or deleted |
| RefCounter.RunAccounts | server/services/slo/slo_rule_ref_store.ts:264-425 | in every run the counter plus what was deleted of it is what the completed changes add up to |
| RefCounter.NothingLostIff | server/services/slo/slo_reconciler.ts:205-217 | the counter alone is that if and only if no deletion met a counter that was not zero |
| RefCounter.DeletionLoses | server/services/slo/slo_rule_ref_store.ts:262-272 | a run in which a deletion loses a reference |
| SloRepair.ComputeObjectiveFingerprints | common/slo/slo_lifecycle_service.ts:409-416 | the map of names to fingerprints, a later objective of the same name winning |
| SloRepair.PickRepresentative | common/slo/slo_service_internals.ts:239-251 | finds the first objective recorded under the fingerprint, exactly when there is one |
| SloRepair.ComputedAreRepresented | common/slo/slo_service_internals.ts:233-251 | every computed fingerprint has a representative, and with distinct names the representative has that fingerprint |
| SloRepair.DuplicateNamesMislead | common/slo/slo_validators.ts:394-404 | without distinct names a representative can have another fingerprint |
| SloRepair.DeriveExpectedGroups | common/slo/slo_service_internals.ts:191-204 | names exactly the recording group of each fingerprint and the alert group |
| SloRepair.HealthProbe.Probe | server/services/slo/rule_health_checker.ts:164-262 | reports unreachable exactly when a call throws, and otherwise healthy exactly when every group is there and none is outdated |
| SloRepair.HealthProbe.Check | server/services/slo/rule_health_checker.ts:265-285 | a cached report is returned as it is while it is less than 30 s old; otherwise the report is fresh, accurate and cached for 30 s |
| SloRepair.ProvisionGroups | common/slo/slo_lifecycle_service.ts:985-1025 | succeeds exactly when no upsert throws; replaces exactly the represented recording groups and the alert group named for the calling workspace; when an upsert throws, every other group is as it was |
| SloRepair.RepairDedup | common/slo/slo_lifecycle_service.ts:949-1041 | an accurate healthy probe means nothing is touched; a repair replaces exactly the represented groups and ends with a fresh report; it fails only when a call throws or a cached report says unreachable, and then changed only groups it provisions; no count and no document is in its frame |
| SloRepair.RepairHeals | common/slo/slo_lifecycle_service.ts:985-1025 | after a repair all expected groups are on the ruler and current if and only if it ran in the home workspace or the alert group was not lost |
| SloRepair.ServiceDocsAreWellRecorded | common/slo/slo_lifecycle_service.ts:409-416 | documents that create and update write have a representative for every fingerprint |
| SloRepair.RepairTwice | common/slo/slo_lifecycle_service.ts:949-1041 | a second repair touches nothing |
| DelimScan.ExtractBalanced | common/slo/promql_builder.ts:199-225 | the loop returns the inside of the one group that is all of the text |
| DelimScan.FindTopLevelMinus | common/slo/promql_builder.ts:314-332 | the loop returns the first spaced minus outside every group and literal |
| DelimScan.ExtractWrapped | common/slo/promql_builder.ts:199-225 | a wrapped text is extracted whole if and only if it never closes more than it opened and ends level, outside a literal |
| PromqlBuilder.ParseFilters | common/slo/promql_builder.ts:164-187 | the loop over filter segments computes the parser's specification |
| PromqlLiterals.UnescapeEscape | common/slo/promql_builder.ts:79-81 | unescaping an escaped label value gives it back, whatever quotes and backslashes it holds |
| PromqlLiterals.FilterParses | common/slo/promql_builder.ts:84-89 | every printed filter parses back, the operator not being mistaken for a longer one |
| PromqlInverse.RoundTrip | common/slo/promql_builder.ts:116-138 | parsing a printed model gives the model up to what the text cannot carry, for any label values |
| PromqlInverse.DifferenceIff | common/slo/promql_builder.ts:354-380 | a difference of two printed terms is read if and only if both show one aggregation, rate, window and grouping, and then as the first minus the metric and filters of the second |
| PromqlSound.AcceptedIsSpelled | common/slo/promql_builder.ts:191-380 | whatever text the parser accepts spells the model it gives, token by token: only white space, the case of keywords and the writing of label values are free, groups are balanced to the end, and both terms of a difference have one shape |
| PromqlSound.TermIsSpelled | common/slo/promql_builder.ts:256-306 | likewise for one term: keyword, grouping clause and one balanced argument around a selector, with a window inside a rate only |
| PromqlSound.ValueKeptIff | common/slo/promql_builder.ts:178-183 | a label value that was read is printed as it was written if and only if it uses no escape but those of a backslash and of a quote |
| PromqlSound.LineEndChanges | common/slo/promql_builder.ts:178-183 | a value for which it is not |
| PromqlSound.PrintedText | common/slo/promql_builder.ts:87-138 | a model as PromQL, written out |
| PromqlInverse.CompleteIsPrintable | common/slo/promql_builder.ts:140-157 | every complete model is one for which that holds |
| PromqlInverse.HydratedIsStable | common/slo/promql_builder.ts:344-380 | what was parsed back, with groupings that are label names, prints and parses to itself |
| LeBounds.LePatternExact | common/slo/slo_promql_generator.ts:575-581 | the anchored pattern of any bound, zero too, matches a plain decimal spelling if and only if it denotes the same number; zero without its leading digit is not matched |
| LeBounds.PatternOf | common/slo/slo_promql_generator.ts:614-623 | a bound's canonical text is its whole seconds and its nanoseconds without trailing zeros |
| LeBounds.SameFraction | common/slo/slo_promql_generator.ts:620-623 | two fraction texts are the same number exactly when they differ in trailing zeros only |
| Histogram.PerRangeBoundsUnder | common/slo/slo_promql_generator.ts:411-420 | strictly ascending, and exactly the given bounds within the tolerance |
| Histogram.SelectsExactly | common/slo/slo_promql_generator.ts:406-420 | selects exactly the bounds at or under the threshold if and only if no bound lies within a billionth above it |
| Histogram.ToleranceReachesNext | common/slo/slo_promql_generator.ts:406-420 | from one second on, the bound one nanosecond above is selected |
| Histogram.BelowOneSecondIsExact | common/slo/slo_promql_generator.ts:406-420 | under one second exactly the bounds at or under the threshold are selected |
| Histogram.SelectsByBound | common/slo/slo_promql_generator.ts:375-389 | the alternation of patterns selects a bucket series exactly when its bound is selected |
| Histogram.PerRangeIsCumulative | common/slo/slo_promql_generator.ts:382-390 | the selected per-range buckets sum to the cumulative bucket at the largest selected bound, so good never exceeds total |
| Histogram.DeltaIsCumulative | common/slo/slo_promql_generator.ts:373-380 | on any layout, a bound of zero included, the delta query selects exactly the bounds at or under the threshold, whatever the spelling of labels, and sums to the cumulative bucket at the largest of them |
| Histogram.SpanDeltaIsCumulative | common/slo/slo_promql_generator.ts:71-73 | on the fifteen span-derived bounds it always selects something, and its sum falls short of the observations at or under the threshold by exactly those above the last selected bound |
| Histogram.CanBeLabelled | common/slo/slo_promql_generator.ts:566-581 | every layout has labels that meet the assumptions of these results |
| Histogram.LayoutsAgree | common/slo/slo_promql_generator.ts:366-404 | at a threshold that is a bound, with none just above it, the per-range query counts what the cumulative bucket counts |
| Fingerprint.CollapseWhitespaceOutsideLiterals | common/slo/slo_sli_fingerprint.ts:123-157 | the loop keeps literals and turns every other run of white space into one blank |
| Fingerprint.SameNormalDimensions | common/slo/slo_sli_fingerprint.ts:178-185 | dimension lists hash alike exactly when they are permutations |
| Fingerprint.PermutedDimensionsShare | common/slo/slo_sli_fingerprint.ts:36-85 | the fingerprint does not depend on the order of dimensions |
| Fingerprint.SameFingerprintIff | common/slo/slo_sli_fingerprint.ts:36-104 | two SLIs get one fingerprint if and only if they read one datasource and agree in everything but white space around metrics and expressions, the order of dimensions, the order and repetition of bounds, and the spacing the filter normal form folds |
| Fingerprint.ThresholdFromText | common/slo/slo_sli_fingerprint.ts:57-65 | on the grid the hashed text determines a threshold that is not negative |
| FilterText.NormalFormParses | common/slo/slo_sli_fingerprint.ts:106-115 | the normal form of an accepted filter stands for the same matcher |
| FilterText.SqueezeSpaced | common/slo/slo_sli_fingerprint.ts:123-157 | collapsing leaves a filter with at most one blank on either side of its operator and its literal untouched |
| FilterText.SameNormalFormIff | common/slo/slo_sli_fingerprint.ts:106-157 | accepted filters have one normal form if and only if they are one matcher with white space on the same sides of its operator |
| FingerprintSound.AvailabilityShareIff | common/slo/slo_sli_fingerprint.ts:36-104 | so exactly when two accepted availability SLIs share a fingerprint |
| FingerprintSound.SubstitutedTrim | common/slo/slo_promql_generator.ts:480-482 | substituting the window and trimming commute |
| FingerprintSound.SameFingerprintSameRule | common/slo/slo_promql_generator.ts:331-404 | accepted SLIs with equal fingerprints have recording rules that evaluate alike on every metric store |
| FingerprintSound.SharedGroupServesBoth | common/slo/slo_promql_generator.ts:1043-1082 | so one recording group serves both in all seven windows |
| RuleValue.AvailabilityValue | common/slo/slo_promql_generator.ts:355-365 | the availability rule is one minus the events its filter selects over all events of the metric with its dimensions, read as the temporality says; no sample without events |
| RuleValue.AvailabilityIsRatio | common/slo/slo_promql_generator.ts:305-307 | so it lies between zero and one where no series is negative |
| RuleValue.DeltaValue | common/slo/slo_promql_generator.ts:372-381 | on a store that holds the span-derived buckets and the count, the delta latency rule is one minus the observations at or under the largest admitted bound over all observations; no value exactly while no admitted bucket has a series |
| RuleValue.PerRangeValue | common/slo/slo_promql_generator.ts:382-391 | the per-range rule likewise, for bounds discovered in any order and either unit, buckets without a series counting as zero; no query exactly where no bound is admitted |
| RuleValue.CumulativeValue | common/slo/slo_promql_generator.ts:392-418 | the cumulative rule is one minus the observations at or under the threshold over all, with the fallback to milliseconds; no value exactly where no bucket at the threshold has a series |
| RuleValue.BoundForThreshold | common/slo/slo_promql_generator.ts:312-318 | the largest bound under a threshold stands for the threshold if and only if nothing was observed between them |
| RuleValue.SlowIsRatio | common/slo/slo_promql_generator.ts:269-274 | a latency ratio lies between zero and one |
| RuleValue.NamesOf | common/slo/slo_promql_generator.ts:583-606 | whichever series of a histogram an SLI names, the rule reads `_bucket` and `_count` of its base name |
| RuleValue.PairValue | common/slo/slo_promql_generator.ts:484-513 | a custom pair is one minus the good query over the total, trimmed and with the window for each token; without a token as it is, or as its upgrade |
| RuleValue.RawValue | common/slo/slo_promql_generator.ts:340-342 | a raw expression is its own error ratio |
| RuleValue.FirstToken | common/slo/slo_promql_generator.ts:479-482 | substituting keeps what stands before a token, puts the window in its place and goes on with the rest |
| RuleText.SameTextIff | common/slo/slo_promql_generator.ts:283-404 | two SLIs of one fingerprint get the same rule text if and only if: availability, dimensions listed alike and trimmed filters written alike; latency, dimensions listed alike or no bucket to query; custom, a pair, or raw expressions that are the same |
| RuleText.SameGroupIff | common/slo/slo_promql_generator.ts:999-1004 | the whole shared recording group is the same for both SLIs on that very condition |
| RuleText.PermutedTextDiffers | common/slo/slo_promql_generator.ts:355-404 | availability and latency: two orders of two labels share a fingerprint and get different texts |
| RuleText.SpacedFilterDiffers | common/slo/slo_promql_generator.ts:356-364 | availability: so do one and two blanks before the filter's operator |
| RuleText.PaddedRawDiffers | common/slo/slo_promql_generator.ts:336-343 | custom: so does a raw expression after a blank |
| RuleText.ConcreteInputs | common/slo/slo_promql_generator.ts:999-1004 | an input of each kind |
| RuleText.AvailabilityText | common/slo/slo_promql_generator.ts:283-290 | an availability rule written out |
| RuleText.LatencyText | common/slo/slo_promql_generator.ts:392-404 | a cumulative latency rule written out |
| RuleText.MatchersSplit | common/slo/slo_promql_generator.ts:562-564 | the text of a selector determines its dimensions and what follows them, for any label values |
| Windows.ClosestIsShortest | common/slo/slo_promql_generator.ts:183-189 | the chosen window is the shortest recorded one that is long enough, or 3d past three days |
| AlertMeaning.BurnMeans | common/slo/slo_promql_generator.ts:629-685 | the alert of a tier fires exactly when both recorded ratios exceed the rounded multiplier times one minus the target, and tells whose and what it is |
| RuleGroups.GenerateBurnRateAlerts | common/slo/slo_promql_generator.ts:629-685 | the loop emits these alerts for the tiers with an alarm, none in shadow mode |
| RuleGroups.GenerateSloRuleGroup | common/slo/slo_promql_generator.ts:932-974 | the loop emits recording rules with their expressions, and alerts, of each objective in order |
| AlertMeaning.GroupAlertsMean | common/slo/slo_promql_generator.ts:687-865 | the alerts of a single group are the wanted ones of its objectives and no others; each fires exactly when it is due by the ratios and one minus the target, waits as long and carries the labels it should |
| AlertMeaning.WantedKinds | common/slo/slo_promql_generator.ts:706-850 | which alerts are emitted: per tier, health, attainment, warnings and no-data, by the switches of the SLO |
| RuleGroups.GenerateRecordingGroupForFingerprint | common/slo/slo_promql_generator.ts:1043-1082 | the shared group: one recording rule per window with the error-ratio expression of that window, without labels of an SLO |
| RuleGroups.GenerateDedupBurnRateAlerts | common/slo/slo_promql_generator.ts:1147-1201 | the loop emits the tiers' alerts over the fingerprint's series |
| AlertMeaning.DedupAlertsMean | common/slo/slo_promql_generator.ts:1147-1315 | the deduplicating path's alerts of an objective fire exactly when they are due, too |
| RuleGroups.GenerateAlertGroupFor | common/slo/slo_promql_generator.ts:1094-1141 | the per-SLO alert group; objectives without fingerprint are skipped |
| AlertMeaning.DedupGroupMeans | common/slo/slo_promql_generator.ts:1094-1141 | with a fingerprint for every objective, that group holds just the wanted alerts, each firing exactly when it is due |
| RuleMeaning.SameObjective | common/slo/slo_promql_generator.ts:1147-1315 | alert by alert, both paths emit the same names, labels, durations and thresholds |
| RuleMeaning.SameRecordings | common/slo/slo_promql_generator.ts:246-290 | rule by rule, both paths record the same expression over the same window |
| RuleMeaning.DedupIsLegacy | common/slo/slo_promql_generator.ts:1094-1141 | with a fingerprint for every objective, the dedup group is the alerts of the single group, one for one and in order |
| RuleMeaning.BurnRateFires | common/slo/slo_promql_generator.ts:650-658 | in either path a burn-rate alert fires exactly when both ratios exceed the threshold |
| RuleMeaning.SameFiring | common/slo/slo_promql_generator.ts:1171-1176 | corresponding alerts fire in the same states once both series hold the shared ratio |
| RuleClosure.LegacyClosedIff | common/slo/slo_validators.ts:604-621 | the single group emits every recorded series its alerts read if and only if all active tiers use recording windows |
| RuleClosure.DedupClosed | common/slo/slo_promql_generator.ts:1043-1082 | in the dedup path those series are in the fingerprint's group |
| RuleClosure.GroupEmits | common/slo/slo_promql_generator.ts:246-272 | a single group emits exactly the seven series of each objective |
| RuleNames.NamesAreDistinct | common/slo/slo_promql_generator.ts:629-821 | two rules have one name only if they are the same rule of the same objective |
| RuleNames.GroupNamesDistinct | common/slo/slo_promql_generator.ts:932-974 | all rule names of a single group are distinct, given suffixes that tell objectives apart |
| PplLookback.FindPipeIndices | common/services/alerting/ppl_lookback.ts:90-105 | the loop finds exactly the top-level pipes |
| PplLookbackExact.RecoveredExactly | common/services/alerting/ppl_lookback.ts:118-191 | field, window and query are recovered if and only if the field has no backquote and its reference closes, or, without a pipe, the query's quotes close |
| PplLookbackExact.PlainlyRecovered | common/services/alerting/ppl_lookback.ts:67-129 | in particular for closed quotes and a field without backquote and backslash |
| PplLookbackExact.CoarsestUnit | common/services/alerting/ppl_lookback.ts:63-71 | the interval is written exactly, in the coarsest unit that fits |
| PplForm.ActionAgain | common/services/alerting/form_transforms.ts:62-88 | an action seeded from its payload gives that payload again, whatever the form held |
| PplForm.TriggerAgain | common/services/alerting/form_transforms.ts:116-142 | so does a trigger with its actions, if and only if the editor knows its severity and a custom condition is not empty |
| PplForm.BuildPplTriggerPayload | common/services/alerting/form_transforms.ts:116-142 | likewise; client-made ids are dropped, unknown operators replaced |
| PplForm.SeededMinutes | common/services/alerting/ppl_lookback.ts:52-61 | the window shown in the editor has the minutes that were parsed |
| PplForm.InsertedAgain | common/services/alerting/ppl_lookback.ts:118-129 | the clause goes back where it was |
| PplForm.SaveEditSave | common/services/alerting/form_transforms.ts:145-298 | opening a saved rule and saving it unchanged reproduces what was saved |
| PplForm.SavedDetermines | common/services/alerting/form_transforms.ts:144-230 | what is saved determines the triggers with their conditions, ids from the backend and actions, the schedule, the window the query is filtered by, and the query around it |
| Brackets.MatchBrackets | common/services/alerting/promql_validator.ts:46-72 | the stack loop reports every unmatched and every unclosed bracket, in order |
| Brackets.NoErrorsIffNested | common/services/alerting/promql_validator.ts:46-72 | nothing is reported if and only if the text is well nested over three bracket kinds |
| CustomPromql.ValidateCustomPromQL | common/slo/slo_validators.ts:62-104 | accepts exactly expressions within the size cap, even in three kinds, without trailing backslash and control characters; a complaint is right |
| CustomPromql.NestedPassesCounters | common/slo/slo_validators.ts:73-93 | well-nested bare text passes all counters |
| CustomPromql.CountersMeanWhole | common/slo/slo_validators.ts:68-93 | with closed double-quoted literals, in which no escape reaches over a line end, the parenthesis counter passes if and only if the wrapped text is read back whole |
| CustomPromql.AcceptedIsWhole | common/slo/promql_builder.ts:199-225 | an accepted bare expression is wrapped safely |
| CustomPromql.SingleQuotesDiffer | common/slo/promql_builder.ts:199-225 | the two scans disagree on single-quoted literals |
| CustomPromql.SplitEscapesDiffer | common/slo/slo_validators.ts:68-72 | they disagree on a literal with an escape over a line end |
| WorkerPool.StepKeepsInv | common/slo/slo_service_internals.ts:58-75 | items in flight are distinct and below the cursor; each item below it is exactly one of in flight, stored with its result, or thrown |
| WorkerPool.BoundedInFlight | common/slo/slo_service_internals.ts:65-72 | at most max(1, limit) items are in flight |
| WorkerPool.MapsEveryItem | common/slo/slo_service_internals.ts:58-75 | every run ends, and without a throw ends with each item's result stored once |
| StatusCache.StatusService.GetStatuses | common/slo/slo_status_service.ts:52-113 | the i-th status belongs to the i-th id; a live entry under 60 s old is served as it is; a miss gets no-data without a document, the stub when the aggregator rejects or is not there, and else the aggregator's own status of its document, and is cached from this call's start |
| StatusCache.StatusService.Partition | common/slo/slo_status_service.ts:59-67 | hits and misses are told apart exactly |
| StatusCache.StatusService.Compute | common/slo/slo_status_service.ts:75-104 | every miss gets the answer described there |
| StatusCache.StatusService.Remember | common/slo/slo_status_service.ts:106-111 | exactly the misses are cached |
| StatusCache.StatusService.Invalidate | common/slo/slo_status_service.ts:116-118 | exactly one entry goes |
| StatusCache.ServedIsRecent | common/slo/slo_status_service.ts:52-118 | in every history a served status came from a call that started less than 60 s before |
| StatusCache.InvalidationHolds | common/slo/slo_status_service.ts:115-118 | an invalidation keeps older statuses out for good if and only if no earlier call is still under way for that id |
| SloStore.InMemorySloStore.Save | common/slo/slo_store.ts:28-30 | replaces the document of that id or appends; every other lookup is unchanged |
| SloStore.InMemorySloStore.Delete | common/slo/slo_store.ts:79-81 | exactly the documents with another id stay; tells whether there was one |
| SloStore.InMemorySloStore.List | common/slo/slo_store.ts:21-26 | the documents of the wanted datasources, all when none is named |
| SloStore.InMemorySloStore.Paginate | common/slo/slo_store.ts:32-77 | the slice and total of the filtered documents in the order asked for |
| SloStore.OrderedFacts | common/slo/slo_store.ts:69-72 | that order keeps every document and goes up or down by name, however names compare |
| SloStore.ListAll | common/slo/slo_query_service.ts:62-138 | the chain of filters keeps exactly what the store's own test keeps |
| SloStore.MatchesIff | common/slo/slo_store.ts:36-68 | a document passes exactly when it meets every facet that is given; a missing or empty optional value meets none |
| SloStore.HitsIff | common/slo/slo_store.ts:59-66 | a search finds exactly the documents in whose name, service or description it occurs, in whatever case |
| SloStore.PageBothWays | common/slo/slo_query_service.ts:378-408 | under the default order the pushed-down page and the page cut from the listing are the same, with the same total |
| SloStore.NamePagesAgreeIff | common/slo/slo_query_service.ts:378-386 | by name they are the same on every page if and only if the documents are in that order already |
| Listing.CursorRoundTrip | common/slo/slo_pagination_cursor.ts:57-80 | a cursor survives encoding and decoding |
| Listing.PageFacts | common/slo/slo_query_service.ts:229-337 | what a page shows and which pages its cursors lead to |
| Listing.CursorMeans | common/slo/slo_query_service.ts:231-237 | a cursor counts only for the filters it was made for; otherwise the listing starts at page one |
| Listing.SortKept | common/slo/slo_query_service.ts:248-249 | the cursors of a page carry on its sort field and order |
| Listing.PrevUndoesNext | common/slo/slo_query_service.ts:301-336 | going back undoes going on if and only if the page is below the ceiling |
| Listing.WalkCovers | common/slo/slo_query_service.ts:229-337 | a walk ends if and only if the listing fits 500 pages, and then its pages are the listing |
| Listing.WalkRepeats | common/slo/slo_query_service.ts:236-237 | beyond that it shows page 500 for ever |
| Listing.WalkLimits | common/slo/slo_query_service.ts:229-237 | for any requested page size a walk ends on up to 500 rows and on none of over 50,000; without one, exactly on up to 10,000 |
| Base64Url.RoundTrip | common/slo/slo_pagination_cursor.ts:39-55 | decoding undoes encoding for any bytes (section 5 of RFC 4648) |
| FilterHash.Hash | common/slo/slo_pagination_cursor.ts:117-125 | the wrapped 32-bit loop over UTF-16 units is the base-33 polynomial modulo 2^32 |
| FilterHash.HashFilters | common/slo/slo_pagination_cursor.ts:92-126 | the hash of the UTF-16 units of the canonical text of the filters |
| FilterHash.StepIsExact | common/slo/slo_pagination_cursor.ts:117-122 | no intermediate leaves the exact range |
| FilterHash.KeyOrderIsIgnored | common/slo/slo_pagination_cursor.ts:92-116 | key order does not matter |
| FilterHash.ItemOrderIsIgnored | common/slo/slo_pagination_cursor.ts:104-114 | array order does not matter |
| FilterHash.DroppedIsIgnored | common/slo/slo_pagination_cursor.ts:93-103 | undefined, null and empty-array entries do not matter |
| FilterHash.CanonicalIff | common/slo/slo_pagination_cursor.ts:92-117 | where no separator stands in a key or text, the canonical texts agree if and only if the kept entries are the same up to order |
| FilterHash.ItemsFromText | common/slo/slo_pagination_cursor.ts:104-112 | without commas in the items, an array's text determines its items up to order |
| Sorting.SortAlike | common/slo/slo_sli_fingerprint.ts:178-185 | sorting by a total order is alike exactly for permutations |

## Left out

- HTTP routes, plugin wiring, saved-object clients and the ruler's transport: only their contracts appear, as calls that may fail.
- The single-group create, update and delete: one SLO, no sharing; its update rollback deletes the old group, as the code does.
- The create, update and delete paths without a reference store: nothing is shared there.
- Alert groups orphaned by a rename: the group name comes from the SLO name, and only the current name is tracked.
- SloLifecycle.SloService.UpdateDedup: the version check before the call is not modelled; one operation per id is assumed instead.
- SloRepair: provenance annotations, sentinel alerts and the bytes of rules are reduced to whether a group is current.
- `upgradeLegacySpanDerivedPair`: taken as a function of the two trimmed queries and the window.
- Custom PromQL expressions and the value test of a filter are evaluated by an unspecified engine.
- YAML output, annotations, rule descriptions, `sha256`, JSON text and UTF-8: not part of this model.
- Slugs, number formatting and `roundThreshold`: taken as functions; no property depends on their digits.
- Case is folded for the letters A to Z only.
- How `localeCompare` orders names: any total preorder.
- Floating-point noise in thresholds and ratios: thresholds are on the nanosecond grid, ratios are real numbers.
- `validatePromQL` beyond brackets, `prettifyPromQL`, `hasUserTimeFilter`, display redaction and message catalogues: regular expressions with easy claims.
- The `state` facet and datasource id resolution of the listing: live values and a lookup outside the model.
- Listing: filters, store and page size are fixed during a walk.
- `normalizeSpec`, status stubs beyond their id, composite and OpenSearch SLIs: no sharing and no queries.
- React components, charts, navigation, traces, the ANTLR PPL parser.

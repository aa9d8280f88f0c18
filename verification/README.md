# Evidence-to-outcome model

A Dafny 4.11 model of the evidence-to-outcome core of the backend, with proofs about all inputs,
all runs and all reachable states. `dafny verify dfyconfig.toml` covers the whole project.

What is modelled, module by module:

- `TradingCalendar`, `ForwardOutcome`: the XNYS calendar as an unbounded increasing run of sessions,
  the mapping of first knowledge to forward sessions, maturity and close-path arithmetic.
- `CanonicalDaily`, `OhlcCatalog`: the canonical daily series and the as-of catalogue of preserved
  closes.
- `ResearchSamples`, `CorporateActions`, `Representatives`, `OutcomeProposals`, `MeasurementChain`,
  `SampleTable`, `OutcomeStore`, `OutcomeRuns`, `OutcomeHistory`: the Stage 9B outcome materializer,
  from one proposal to whole histories of growing evidence and repeated steps.
- `ChainParser`, `ArchivePass`, `ArchiveProtocol`, `ArchiveLaws`, `ArchiveStops`, `ArchiveTable`,
  `OiArchiver`: the daily open-interest archiver as a two-pass machine over an arbitrary stream of
  vendor answers.
- `Scoring`, `Clusters`, `ClusterResults`, `PersistenceWindows`: strike clusters and persistence
  windows.
- `CurrentPersistence`, `CandidateGrouping`, `CandidateMaterialization`, `CandidateHistory`,
  `CandidatePool`, `FrozenBaseline`, `BaselineHistory`: from current observations to candidates and
  their frozen first-knowledge baselines.
- `DealerSurface`, `DealerReaders`, `DealerAgreement`, `DealerArchive`, `DealerRuns`,
  `DealerHistory`: the dealer gamma surface, its two readers, its archive and the run-suppression
  protocol.

Conventions. Code that updates things step by step is a method or a class with loops; each is proved
equal to a recursive function, and the properties are lemmas about that function. Instants and dates
are integers, tickers and other texts are ranks in their string order, prices and scores are reals.
Hashes and fingerprints are injective, so they are modelled by what they hash. Tables are sequences,
inserted ids are positions, queries are filters in stored order with the stated sort. A lock makes an
execution atomic. A raised error leaves the tables as they were where the caller rolls its session
back (`backend/app/cli.py:126-140`, `backend/app/scanner/v11.py:109-113`). The vendor is an arbitrary
sequence of answers.

Results about the code worth a maintainer's attention:

- A research sample stored before its candidate had a baseline blocks every later materialization
  once the baseline is frozen, whatever arrives afterwards
  (`OutcomeHistory.FirstBaselineAfterSampleBlocks`, with the run of `OutcomeHistory.LateBaselineRun`);
  samples survive exactly under the condition of `OutcomeHistory.SampleSurvivesIff`.
- `persist_candidate_projection` checks for a qualifying anomaly before deduplication, so a hand-made
  projection with two anomalies of one source row can lose the qualifying one
  (`CandidateMaterialization.DuplicateHidesQualifier`, exactly as
  `CandidateMaterialization.QualifyingTriggerIff` says). The application only passes the pool of its
  own scan (`backend/app/scanner/candidate_persistence.py:74`), where that cannot happen
  (`CandidatePool.PoolCandidatesQualify`).
- The workspace hands the v3 reader the stock price when the surface has no spot
  (`backend/app/confirmation/workspace_v3.py:385-392`), so on a usable surface without spot v3 reports
  a structure where vNext reports that there is no spot (`DealerAgreement.SpotlessSurface`,
  `DealerAgreement.WorkspaceAgreesIff`).
- Without a floor the v3 reader shows a placeholder adjacent node where the vNext reader shows none
  (`DealerAgreement.PlaceholderAgainstNothing`, `DealerAgreement.AdjacentNodesAgreeIff`), and
  zero-valued adjacent nodes are NOT_ALIGNED in one vocabulary and mixed or UNAVAILABLE in the other
  (`DealerAgreement.NotAlignedAgainstUnavailable`, `DealerAgreement.AdjacentStatesAgree`).
- A budget that runs out in the recovery pass leaves the ticker row RUNNING
  (`ArchiveStops.SlowRun`, with the exact condition in `ArchiveStops.BudgetStopLeaves`); its counters
  still obey conservation (`ArchiveLaws.TickerLaw`).
- The dealer archiver's usage log is not reset between executions of one archiver object, so its
  budgets are per object (`DealerHistory.AttemptsIffRoom`, `DealerHistory.SecondExecutionOmits`). Both
  callers build a fresh archiver per execution (`backend/app/cli.py:454`,
  `backend/app/scheduler/service.py:187`), for which `DealerHistory.FreshExecutionIsBounded` holds.

## Model

| member | source | states |
|---|---|---|
| `TradingCalendar.Advance` | backend/app/research/forward_outcome.py:378-382 | from a session, stepping session by session ends `count` sessions later |
| `TradingCalendar.ClosesIncrease` | backend/app/research/materialization.py:794-800 | official closes are ordered exactly as their sessions, from the day each close falls on |
| `ForwardOutcome.PlanNumbers` | backend/app/research/forward_outcome.py:237-270 | reference, T+1, T+3, T+5 as session numbers: reference closed by first knowledge, T+1 not yet, and T+1 is one session later, or two exactly for post-close knowledge without a same-day proof |
| `ForwardOutcome.PlanIsOrderedAndCausal` | backend/app/research/forward_outcome.py:237-270 | reference < T+1 < T+3 < T+5, all sessions; reference close <= first knowledge < T+1 close |
| `ForwardOutcome.T1IsFirstUnclosedSession` | backend/app/research/forward_outcome.py:248-262 | T+1 is the first session whose close is still ahead of first knowledge |
| `ForwardOutcome.LaterKnowledgeLaterT1` | backend/app/research/forward_outcome.py:237-270 | later first knowledge never gets an earlier T+1 |
| `ForwardOutcome.GapBeforeT1` | backend/app/research/forward_outcome.py:237-270 | a session lies strictly between reference and T+1 iff knowledge came at or after a close without a same-day proof, and it is that day |
| `ForwardOutcome.ProofMovesReference` | backend/app/research/forward_outcome.py:253-259 | the same-day proof changes the plan iff first knowledge is post-close, and then only the reference session |
| `ForwardOutcome.PathHasHorizonSessions` | backend/app/research/materialization.py:786-800 | the T+h path has exactly h sessions and shorter paths are prefixes of longer ones |
| `ForwardOutcome.MetricsAreOrdered` | backend/app/research/forward_outcome.py:305-325 | -1 < max downside <= close return <= max upside on every complete positive path |
| `ForwardOutcome.MetricsWiden` | backend/app/research/forward_outcome.py:305-325 | a longer path from the same reference only raises max upside and lowers max downside |
| `CanonicalDaily.GroupByDate` | backend/app/confirmation/domain.py:38-42 | the grouping dictionary holds, per date text, its rows in order, and its keys in order of first appearance |
| `CanonicalDaily.CanonicalRegularDaily` | backend/app/confirmation/domain.py:35-61 | the grouping and classification loops compute the canonical series: single regular rows by date, missing and ambiguous dates sorted |
| `CanonicalDaily.SingleRowsFacts` | backend/app/confirmation/domain.py:46-54 | a row is an observation iff it is the only regular row of its date |
| `CanonicalDaily.CutCommutesWithCanonical` | backend/app/confirmation/vnext.py:102-135 | cutting bars at a date and then canonicalizing equals canonicalizing and then cutting: later or undated bars cannot reach the series |
| `OhlcCatalog.PreservedOhlcCatalog.constructor` | backend/app/research/materialization.py:131-137 | the built history is the pure ingestion of the payloads in (received_at, id) order, each list sorted |
| `OhlcCatalog.PreservedOhlcCatalog.Ingest` | backend/app/research/materialization.py:154-218 | one payload appends exactly its listed dates to the history, and nothing when it is not a daily bar list |
| `OhlcCatalog.EntryMeaning` | backend/app/research/materialization.py:164-191 | a listed date has a close iff it has exactly one regular row with a positive close; the no-canonical-row reason never occurs |
| `OhlcCatalog.LookupInBuilt` | backend/app/research/materialization.py:139-152 | a lookup in the built dictionary is the lookup of the plain scan |
| `OhlcCatalog.LookupIsLatest` | backend/app/research/materialization.py:139-152 | lookup answers with the entry of the greatest (received_at, id) payload that lists the session and was received by the cutoff, and with nothing iff there is none |
| `OhlcCatalog.LookupSeesOnlyReceivedPayloads` | backend/app/research/materialization.py:139-152 | payload order, payloads received after the cutoff and other tickers never change an answer |
| `OhlcCatalog.LookupIsPositive` | backend/app/research/materialization.py:187-191 | every close answered is positive |
| `ResearchSamples.CohortOf` | backend/app/research/forward_outcome.py:157-187 | the counting loop computes families, route, qualifying count and bucket counts |
| `ResearchSamples.RouteIffQualifying` | backend/app/research/forward_outcome.py:348-362 | a cohort has a route iff it has a qualifying trigger |
| `ResearchSamples.FrozenBaselineIsEarliest` | backend/app/research/materialization.py:756-761 | the frozen baseline is the earliest first-knowledge baseline by (evaluated_at, id), absent iff there is none |
| `ResearchSamples.LaterBaselinesIgnored` | backend/app/research/materialization.py:756-761 | baselines evaluated strictly later never replace a frozen baseline |
| `ResearchSamples.FoundationMeetsChecks` | backend/app/research/models.py:35-90 | every built sample meets the table constraints on validity, primary eligibility, qualifying evidence and session order |
| `ResearchSamples.FoundationStableIff` | backend/app/research/forward_outcome.py:190-234 | a rebuilt foundation is unchanged iff the baseline is the same and the same-day proof agrees or cannot matter |
| `CorporateActions.LatestRevisions` | backend/app/research/materialization.py:458-477 | the overwrite loop leaves, per event key, one row that no row of its key supersedes |
| `CorporateActions.GroupActive` | backend/app/research/materialization.py:478-484 | the second loop lists, ticker by ticker and once each, exactly the known price-scale survivors |
| `CorporateActions.ActiveCorporateActions` | backend/app/research/materialization.py:455-484 | the whole fold equals the reference definition of active actions, sorted |
| `CorporateActions.ActiveMembers` | backend/app/research/materialization.py:455-484 | an action is active iff it is the latest revision of its event, known and price-scale changing |
| `CorporateActions.NewerRevisionDeactivates` | backend/app/research/materialization.py:469-481 | a newer revision ends the activity of every older one |
| `Representatives.PrimaryRepresentativeIds` | backend/app/research/materialization.py:764-783 | the grouping loops mark exactly the least eligible sample of each window |
| `Representatives.MarkedIffRepresents` | backend/app/research/materialization.py:764-783 | a row is marked iff it is eligible and no eligible sample of its window has a smaller (first knowledge, candidate id) |
| `Representatives.ExactlyOneRepresentative` | backend/app/research/materialization.py:764-783 | a window has a representative iff it has an eligible sample, and never two |
| `Representatives.RepresentativeIgnoresOrder` | backend/app/research/materialization.py:764-783 | the choice does not depend on the order of the samples |
| `Representatives.RepresentativeMatchesReference` | backend/app/research/aggregation.py:8-22 | on one window the choice equals the aggregate reference |
| `OutcomeProposals.CompletePathHasMetrics` | backend/app/research/materialization.py:612-634 | a complete preserved path always yields metrics, so the unexpected-no-outcome error cannot occur |
| `OutcomeProposals.CollectEvidence` | backend/app/research/materialization.py:547-575 | the evidence loop collects per-session evidence and exactly the sessions without a close |
| `OutcomeProposals.ProposeMeasurement` | backend/app/research/materialization.py:486-634 | the branches in order, with the evidence loop among them, compute the specified proposal |
| `OutcomeProposals.ProposalMeetsChecks` | backend/app/research/models.py:188-239 | every proposal meets the measurement table constraints; primary only for a representative of an eligible sample |
| `OutcomeProposals.AvailableProposal` | backend/app/research/materialization.py:486-634 | MATURE_AVAILABLE iff the sample is valid, the target has closed, no relevant action is known and every required close is preserved |
| `OutcomeProposals.HorizonsNest` | backend/app/research/materialization.py:486-634 | an available longer horizon makes every shorter one available with the same reference close and a narrower, ordered close range |
| `OutcomeProposals.ContaminationSpreads` | backend/app/research/materialization.py:499-595 | contamination of a horizon contaminates every longer matured one |
| `MeasurementChain.AppendKeepsValid` | backend/app/research/materialization.py:636-707 | an append keeps every row a checked continuation of its chain and only adds at the end |
| `MeasurementChain.LatestIsLast` | backend/app/research/materialization.py:644-657 | the newest revision is the last row of its chain in table order |
| `MeasurementChain.ChainShape` | backend/app/research/materialization.py:636-707 | revisions of a chain are exactly 1..n; each row supersedes its predecessor and differs from it |
| `MeasurementChain.AppendPushes` | backend/app/research/materialization.py:636-707 | one append pushes its content onto its own chain unless it already ends with it, and leaves all other chains alone |
| `MeasurementChain.AppendAllPushes` | backend/app/research/materialization.py:287-321 | after a pass each proposal is the newest content of its chain and at most one revision was added to it |
| `SampleTable.EnsureAllFacts` | backend/app/research/materialization.py:425-453 | after the sample loop candidate i has exactly one row and it holds its rebuilt foundation; old rows stay |
| `SampleTable.EnsureAllFailsIff` | backend/app/research/materialization.py:256-278 | the sample loop fails iff some candidate has no run or a stored sample that differs from its rebuilt foundation |
| `OutcomeStore.Stage9BOutcomeMaterializer.Materialize` | backend/app/research/materialization.py:227-321 | a run turns the tables into the specified step, or leaves them as they were on error; the summary counts follow from the tables |
| `OutcomeStore.Stage9BOutcomeMaterializer.EnsureSamples` | backend/app/research/materialization.py:256-278 | the loop computes the sample phase and stops at its first error |
| `OutcomeStore.Stage9BOutcomeMaterializer.ProposeItem` | backend/app/research/materialization.py:297-305 | one proposal from the built catalogue and the grouped corporate actions is the specified item of its sample and horizon |
| `OutcomeStore.Stage9BOutcomeMaterializer.AppendProposals` | backend/app/research/materialization.py:294-321 | the nested loop over samples and horizons appends the proposals in order |
| `OutcomeRuns.StepKeepsStore` | backend/app/research/materialization.py:227-321 | a step keeps all table constraints, unique samples and chains, and only appends |
| `OutcomeRuns.StepPushesProposals` | backend/app/research/materialization.py:287-321 | after a step candidate i has its rebuilt sample and each of its three chains is the old chain with the current proposal pushed |
| `OutcomeRuns.StepTouchesOnlyCandidates` | backend/app/research/materialization.py:287-321 | chains of samples outside the step are untouched |
| `OutcomeRuns.StepFailsIff` | backend/app/research/materialization.py:256-278 | a step fails iff a candidate has no run or a disagreeing sample |
| `OutcomeRuns.StepIsIdempotent` | backend/app/research/materialization.py:227-321 | repeating a step on unchanged evidence inserts nothing |
| `OutcomeRuns.OnePrimaryPerWindow` | backend/app/research/materialization.py:280-321 | after a step at most one of the candidates of a window has a primary-descriptive newest measurement of a horizon |
| `OutcomeHistory.RunKeepsOnePrimary` | backend/app/research/materialization.py:280-321 | over every run, at every moment and over all stored samples, at most one newest measurement per (window, horizon) is primary-descriptive |
| `OutcomeHistory.RunIsAppendOnly` | backend/app/research/materialization.py:636-707 | over every run of evidence and steps the tables only grow and every chain has revisions 1..n whose neighbours differ |
| `OutcomeHistory.MarkedIffLeads` | backend/app/research/materialization.py:764-783 | a step marks a row as representative iff its candidate is eligible and no candidate of its window has a smaller (first knowledge, candidate id) |
| `OutcomeHistory.RunEndsAtProposal` | backend/app/research/materialization.py:287-321 | whatever happened before, a successful step leaves every chain ending in the current proposal, made with the representative flag exactly for the candidate that leads its window |
| `OutcomeHistory.SampleSurvivesIff` | backend/app/research/materialization.py:425-453 | a stored sample survives new evidence iff the frozen baseline is unchanged and the same-day proof is unchanged or irrelevant |
| `OutcomeHistory.ProofIgnoresLaterPayload` | backend/app/research/materialization.py:261-274 | payloads of other tickers or received after first knowledge do not move the same-day proof |
| `OutcomeHistory.TimelyRunsNeverConflict` | backend/app/research/materialization.py:425-453 | over every run whose evidence respects time no step raises the immutability conflict |
| `OutcomeHistory.FirstBaselineAfterSampleBlocks` | backend/app/research/materialization.py:425-453 | a baseline frozen after its candidate was sampled without one makes every later step fail, over every sequence of events, and the tables never change again |
| `OutcomeHistory.StuckForever` | backend/app/research/materialization.py:425-453 | a frozen baseline next to a sample stored without one is permanent: it survives every event and fails every step |
| `OutcomeHistory.LateBaselineRun` | backend/app/research/materialization.py:425-453 | the concrete run: candidate, step, late baseline, then any events, then a failing step |
| `ChainParser.CountIssues` | backend/app/scanner/parsers.py:385-402 | the first loop counts every row issue, and as repeats the valid rows minus their different symbols |
| `ChainParser.ParseCompleteChain` | backend/app/scanner/parsers.py:371-473 | the parser returns the reference classification and contracts, every issue count and the exact number of repeated symbols |
| `ChainParser.CompleteChainMeaning` | backend/app/scanner/parsers.py:371-473 | a complete chain has one contract per returned row, right expiration, distinct symbols; FULL iff the total is reached, BOUNDED iff 400 rows below the total; otherwise no contracts |
| `ArchivePass.StoreWrites` | backend/app/scanner/archive.py:614-682 | storing a chain stores exactly its symbols for its expiry and leaves other expiries alone |
| `ArchivePass.RecoverKeeps` | backend/app/scanner/archive.py:539-550 | a recovery moves one expiry from incomplete to complete and keeps every counter equal to what the snapshots say |
| `ArchivePass.OmitKeeps` | backend/app/scanner/archive.py:966-974 | marking budget omissions changes no counter |
| `ArchivePass.Conservation` | backend/app/scanner/archive.py:555-611 | expected = complete + incomplete + omitted, complete = full + bounded, incomplete = true-incomplete + accepted lifecycle |
| `ArchivePass.CleanIffNoTrueIncomplete` | backend/app/scanner/archive.py:555-572 | the COMPLETE condition holds iff true-incomplete is 0 |
| `ArchiveProtocol.NormalFromSound` | backend/app/scanner/archive.py:288-434 | the normal pass ends with every snapshot decided, or with the rest omitted and no budget room, or it aborts with undecided snapshots; contracts are stored once |
| `ArchiveProtocol.RecoverFromSound` | backend/app/scanner/archive.py:436-554 | the recovery pass keeps the pass sound and leaves no snapshot pending |
| `ArchiveProtocol.RecoveryIsBounded` | backend/app/scanner/archive.py:436-460 | no expiry is retried twice, run-wide attempts stay within seven, complete chains grow by exactly the recovered ones |
| `ArchiveProtocol.CompletedRowLaw` | backend/app/scanner/archive.py:555-611 | a finished ticker row obeys all conservation laws and is COMPLETE iff true-incomplete is 0 |
| `ArchiveStops.RecoveryStopsIff` | backend/app/scanner/archive.py:436-477 | the recovery pass is stopped by a budget iff some deferred expiry is reached below the run-level cap with no budget left, and no answer before it offers an already stored symbol |
| `ArchiveStops.BudgetStopLeaves` | backend/app/scanner/archive.py:288-304 | a budget stop leaves PARTIAL_ARCHIVE_BUDGET_LIMIT iff it hits the normal pass, and RUNNING iff the normal pass ends and the recovery pass is stopped |
| `ArchiveStops.SlowRun` | backend/app/scanner/archive.py:127-134 | a concrete vendor and a fresh run without client retries: 116 chains never materialize, the last is rate-limited, the run ends BUDGET_LIMITED with the ticker RUNNING |
| `ArchiveTable.TickerKeepsTable` | backend/app/scanner/archive.py:614-682 | archiving a ticker never stores a contract of a vendor date twice and stores exactly as many as its row counts |
| `ArchiveTable.EveryRunStoresOnce` | backend/app/scanner/archive.py:105-186 | every run leaves each contract of a vendor date stored once, removes none, and adds as many as its ticker rows count unless it fails |
| `ArchiveLaws.PollIsBounded` | backend/app/scanner/archive.py:684-711 | polling one chain makes at most three requests and stays within both budgets |
| `ArchiveLaws.TickerLaw` | backend/app/scanner/archive.py:188-612 | every archived ticker ends lawfully whatever the vendor answers |
| `ArchiveLaws.TickerIsCapped` | backend/app/scanner/archive.py:75-92 | consumed units stay within 250, attempts within 350 plus one call's retries, recoveries within seven |
| `ArchiveLaws.EveryRunIsLawful` | backend/app/scanner/archive.py:105-186 | every run has one lawful row a ticker, a status that follows from the rows, and budget-limited rows only when a budget was hit |
| `ArchiveLaws.RunCompleteIff` | backend/app/scanner/archive.py:842-861 | a run is COMPLETE iff no budget was hit, every ticker is complete or unchanged, and at least one is complete |
| `ArchiveLaws.ScopedInRange` | backend/app/scanner/archive.py:234-238 | an expiry is in scope iff the surface lists it with tenor 0..180 days |
| `OiArchiver.ArchiveBudget.Observe` | backend/app/scanner/archive.py:87-92 | an observed request adds its attempts and one consumed unit when it consumed quota |
| `OiArchiver.DailyOiArchiver.FetchMaterializedChain` | backend/app/scanner/archive.py:684-711 | the polling loop is the polling function; at most three requests, directed waiting at most thirty seconds |
| `OiArchiver.DailyOiArchiver.ArchiveExpiry` | backend/app/scanner/archive.py:288-434 | one expiry of the normal pass does what the step function says for the vendor's reply |
| `OiArchiver.DailyOiArchiver.NormalPass` | backend/app/scanner/archive.py:288-434 | the loop over expiries is the normal pass function |
| `OiArchiver.DailyOiArchiver.Retry` | backend/app/scanner/archive.py:450-554 | one deferred retry waits, counts, requests and decides as the retry function says |
| `OiArchiver.DailyOiArchiver.RecoveryPass` | backend/app/scanner/archive.py:436-554 | the recovery loop is the recovery function, skipping past the run-level cap |
| `OiArchiver.DailyOiArchiver.ArchiveTicker` | backend/app/scanner/archive.py:188-612 | one ticker: surface check, reuse, both passes and accounting as the ticker function |
| `OiArchiver.DailyOiArchiver.Execute` | backend/app/scanner/archive.py:105-186 | the run over the universe is the run function |
| `Clusters.GreedyGroups` | backend/app/scanner/clusters.py:85-103 | the greedy loop emits exactly the runs of length two or more |
| `Clusters.RunsSegment` | backend/app/scanner/clusters.py:85-103 | the runs concatenate to the input, every run grew element by element, and every break was forced |
| `Clusters.SegmentationIsUnique` | backend/app/scanner/clusters.py:203-219 | no other segmentation has grown runs and forced breaks |
| `Clusters.BreaksAreForced` | backend/app/scanner/clusters.py:212-217 | a break means a ladder gap over two steps or a span over 20% of the usable spot; the runs make up the on-ladder candidates in strike order |
| `Clusters.GroupIsSorted` | backend/app/scanner/clusters.py:200-219 | strikes of a group never decrease and its members are candidates on the ladder |
| `Clusters.GroupNeighboursAreNear` | backend/app/scanner/clusters.py:94-97 | between neighbours of a group lies at most one other ladder strike |
| `Clusters.GroupsSpanAtMost20Percent` | backend/app/scanner/clusters.py:210-213 | with one positive spot for all candidates no group is wider than 20% of it |
| `Clusters.GroupTotalsNeverExceedCandidates` | backend/app/scanner/clusters.py:222-223 | all groups together hold at most the candidates' open interest |
| `Clusters.WeightedMeanWithin` | backend/app/scanner/clusters.py:224-228 | a weighted mean lies within any bounds of its values |
| `ClusterResults.BuildClusterGroups` | backend/app/scanner/clusters.py:79-103 | the volume builder's groups are those of the shared segmentation |
| `ClusterResults.BuildPositioningClusters` | backend/app/scanner/clusters.py:191-296 | one result per group of the shared segmentation, in order, with score, class, shape, centre, persistence counts and net changes |
| `ClusterResults.CenterWithinGroup` | backend/app/scanner/clusters.py:268-272 | the OI-weighted centre lies between the lowest and highest strike of its group |
| `ClusterResults.StrengthWithinMembers` | backend/app/scanner/clusters.py:224-228 | weighted strength lies within its members' range |
| `ClusterResults.ScoreWithin` | backend/app/scanner/clusters.py:236-246 | the rounded score stays within 0..100 for member scores in 0..100 and liquidity points in 0..15 |
| `Scoring.Round3Within` | backend/app/scanner/clusters.py:246 | rounding to three decimals, ties to even, moves a score by at most half a thousandth and never across a whole bound |
| `Scoring.PiecewiseWithin` | backend/app/scanner/scoring.py:13-22 | an interpolated score never leaves the range of its anchors |
| `PersistenceWindows.SeriesMeaning` | backend/app/scanner/history.py:136-143 | the series holds, in strict date order, exactly the last point of each known date |
| `PersistenceWindows.LaterPointsIgnored` | backend/app/scanner/history.py:136-143 | points dated after the analysis date change nothing wherever they stand |
| `PersistenceWindows.DeltasTelescope` | backend/app/scanner/history.py:47-48 | interval changes sum to the net change |
| `PersistenceWindows.NetForcesPersistence` | backend/app/scanner/history.py:47-54 | a nonzero net forces directional persistence of at least 1/(window-1); flat means none; always within 0..1 |
| `PersistenceWindows.BuildAndDecline` | backend/app/scanner/history.py:79-80 | build plus decline persistence is at most 1 |
| `PersistenceWindows.ScoreWindows` | backend/app/scanner/history.py:146-176 | the window loop records every filled window and its winner is the lexicographic maximum |
| `PersistenceWindows.ContractPersistence` | backend/app/scanner/history.py:130-207 | count, confidence, winner, windows and last delta over the series; a winner iff confidence is not INSUFFICIENT; score within 0..100 |
| `PersistenceWindows.ExpiryPersistence` | backend/app/scanner/history.py:86-127 | the same for expiries |
| `CurrentPersistence.EligibleIffCurrent` | backend/app/scanner/vnext.py:51-70 | eligible iff a limit is set and the window ends within it and not in the future; iff the state is CURRENT |
| `CurrentPersistence.SelectCurrent` | backend/app/scanner/vnext.py:116-145 | the loop keeps the first admissible row of each contract |
| `CurrentPersistence.FirstPerContractMeaning` | backend/app/scanner/vnext.py:129-145 | a row is kept iff no earlier row has its contract, and every contract is represented |
| `CurrentPersistence.SelectsNewestAdmissible` | backend/app/scanner/vnext.py:116-145 | for newest-first input every admissible row is covered by a selected one at least as new |
| `CurrentPersistence.SelectedAreAdmissible` | backend/app/scanner/vnext.py:116-145 | selected rows are given, admissible and of different contracts |
| `CurrentPersistence.InadmissibleRowsIgnored` | backend/app/scanner/vnext.py:122-127 | inserting inadmissible rows anywhere never changes the answer |
| `CurrentPersistence.PublicAgreesWithSelection` | backend/app/scanner/candidate_projection.py:311-341 | the public judgement is eligible iff the selection admits the row |
| `CurrentPersistence.SelectedAreEligibleAgain` | backend/app/scanner/candidate_projection.py:311-341 | every selected row is judged eligible and CURRENT again |
| `CurrentPersistence.EvidenceForProjection` | backend/app/scanner/candidate_projection.py:112-152 | query, selection and fill-in loop give the current triggers followed by analytics of other contracts |
| `CurrentPersistence.EvidenceMeaning` | backend/app/scanner/candidate_projection.py:148-152 | one row a contract, current triggers never displaced, every known analytics contract represented |
| `CurrentPersistence.TriggersIgnoreLaterRows` | backend/app/scanner/candidate_projection.py:123-146 | stores that agree on rows observed by the knowledge cutoff give the same triggers |
| `CandidateGrouping.GroupProductCandidates` | backend/app/scanner/vnext.py:148-191 | the grouping loops compute the projections |
| `CandidateGrouping.ProjectionMeaning` | backend/app/scanner/vnext.py:148-191 | tickers ascend; a ticker has a projection iff it has a qualifying active anomaly; a projection holds all active anomalies of its ticker |
| `CandidateGrouping.GroupingKeepsOccurrences` | backend/app/scanner/vnext.py:164-171 | a projection's anomalies are a sorted permutation of its ticker's |
| `CandidateGrouping.CandidateIffTriggered` | backend/app/scanner/candidate_projection.py:155-308 | a ticker becomes a candidate iff it has a radar row, an activity row or an admissible persistence row |
| `CandidateMaterialization.MaterializeTriggers` | backend/app/scanner/candidate_persistence.py:217-291 | both loops compute deduplication and triggers, with the first error in order |
| `CandidateMaterialization.TriggersAreSound` | backend/app/scanner/candidate_persistence.py:224-252 | accepted triggers have unique (family, source) keys and no time after the cutoff |
| `CandidateMaterialization.QualifyingTriggerIff` | backend/app/scanner/candidate_persistence.py:103-108 | a stored candidate has a qualifying trigger iff some qualifying anomaly is the first of its key |
| `CandidateMaterialization.DuplicateHidesQualifier` | backend/app/scanner/candidate_persistence.py:232-236 | a hand-made pair of anomalies of one source row that passes the guard and leaves no qualifying trigger |
| `CandidateMaterialization.CandidateMaterializer.Materialize` | backend/app/scanner/candidate_persistence.py:33-80 | one call changes the run and table exactly as the step says; a failing call changes nothing |
| `CandidateMaterialization.CandidateMaterializer.Persist` | backend/app/scanner/candidate_persistence.py:83-135 | all rows and the three markers are written together |
| `CandidateHistory.GroupedNeverTripGuards` | backend/app/scanner/candidate_persistence.py:103-108 | grouped projections never trip the qualifying guard nor the uniqueness constraint |
| `CandidateHistory.FirstCall` | backend/app/scanner/candidate_persistence.py:54-80 | a successful first call adds one row per projected ticker, sets the markers and loads back what it returned |
| `CandidateHistory.ReplayIff` | backend/app/scanner/candidate_persistence.py:294-316 | a later call changes nothing and returns the stored rows iff cutoff and rule inputs are unchanged |
| `CandidateHistory.EventsKeep` | backend/app/scanner/candidate_persistence.py:33-135 | every sequence of events keeps the invariant; rows never change, markers and rows of a run are fixed once set |
| `CandidateHistory.ExactlyOnce` | backend/app/scanner/candidate_persistence.py:33-80 | every later successful call returns the very rows of the first |
| `CandidateHistory.NeverCorrupt` | backend/app/scanner/candidate_persistence.py:50-52 | reachable states never show orphan rows, partial markers, another rule version or conflicting rows |
| `CandidatePool.EvidenceIsDistinct` | backend/app/scanner/candidate_projection.py:148-152 | the evidence of a scan holds no row twice |
| `CandidatePool.PoolKeysDiffer` | backend/app/scanner/candidate_projection.py:155-308 | in the pool of rows with unique ids no two anomalies share a (family, source) key, and all name an active family and a source row |
| `CandidatePool.ProjectionTriggers` | backend/app/scanner/candidate_persistence.py:217-291 | a projection of that pool loses nothing to deduplication: it succeeds iff all its anomalies are known by the cutoff, with one trigger each and a qualifying one |
| `CandidatePool.PoolCandidatesQualify` | backend/app/scanner/candidate_persistence.py:54-80 | the first call on the scan's own pool succeeds iff nothing about a triggered ticker is known after the cutoff; then every candidate has all its ticker's triggers and a qualifying one |
| `FrozenBaseline.ArchivedSourceBundle` | backend/app/confirmation/vnext.py:217-260 | the loop over endpoints computes the bundle |
| `FrozenBaseline.BundleIsCausal` | backend/app/confirmation/vnext.py:228-240 | each bundle payload was received and observed by the cutoff and is the latest such payload |
| `FrozenBaseline.ChainContext` | backend/app/confirmation/vnext.py:510-550 | the setdefault loop keeps the first queried row of each symbol |
| `FrozenBaseline.ChainIsNewestVisible` | backend/app/confirmation/vnext.py:510-550 | the chain holds exactly the newest visible row of every symbol |
| `FrozenBaseline.NoLookahead` | backend/app/confirmation/vnext.py:316-384 | stores that agree on everything recorded by the cutoff give the same bundle, chains, surface and price series |
| `FrozenBaseline.PriceIgnoresLaterBars` | backend/app/confirmation/vnext.py:348-358 | the price series is the full canonical series cut at the cutoff date |
| `BaselineHistory.Stage6BalancedContextService.CreateBaseline` | backend/app/confirmation/vnext.py:146-176 | one call stores or returns the baseline exactly as specified, with both errors |
| `BaselineHistory.BaselineIsFrozen` | backend/app/confirmation/vnext.py:146-176 | whenever it is created, the baseline holds the context of first knowledge, whatever was collected meanwhile |
| `BaselineHistory.BaselineIsUnique` | backend/app/confirmation/vnext.py:203-215 | once created every later request returns that row and stores nothing |
| `DealerSurface.ParseSurfaceCells` | backend/app/dealer_archive/domain.py:129-162 | the deduplication loop computes cells and counters |
| `DealerSurface.NormalizeSurface` | backend/app/dealer_archive/domain.py:104-254 | normalization computes the specified surface |
| `DealerSurface.UsableIff` | backend/app/dealer_archive/domain.py:201-237 | usable iff the response is whole; AVAILABLE iff besides every net is present and nothing is degraded or open |
| `DealerSurface.UsableSurfaceIsFaithful` | backend/app/dealer_archive/domain.py:129-254 | a usable surface carries every source cell once in place under a vendor-time identity; otherwise no cell and no identity |
| `DealerReaders.ContextIgnoresOrder` | backend/app/confirmation/vnext.py:946-1005 | the vNext reading does not depend on cell order |
| `DealerReaders.StructureIgnoresOrder` | backend/app/confirmation/workspace_v3.py:207-347 | the v3 reading does not depend on cell order |
| `DealerAgreement.ReadersPickSameNodes` | backend/app/confirmation/workspace_v3.py:207-287 | whatever spot v3 is handed, it gives the same reason for nothing, or the same floor, upper node and node below the floor, as vNext on the surface quoted at that spot |
| `DealerAgreement.SameSurfaceAgreesIff` | backend/app/confirmation/workspace_v3.py:223-234 | on one surface the readers agree iff v3 is handed no spot, or the surface has one and no positive anchor cell between the two spots would change a node |
| `DealerAgreement.WorkspaceAgreesIff` | backend/app/confirmation/workspace_v3.py:384-392 | with the workspace's choice of spot the readers agree iff the surface has a spot or there is no stock price |
| `DealerAgreement.SpotlessSurface` | backend/app/dealer_archive/domain.py:246 | a normalized usable surface without spot, stock price 100: v3 reports a floor at 95, vNext reports SPOT_NOT_AVAILABLE |
| `DealerAgreement.AdjacentNodesAgreeIff` | backend/app/confirmation/workspace_v3.py:142-177 | adjacent nodes agree iff some positive anchor cell lies below spot or no cell has an earlier (later) expiration |
| `DealerAgreement.PlaceholderAgainstNothing` | backend/app/confirmation/workspace_v3.py:160-174 | a surface without floor: v3 shows a placeholder node, vNext none |
| `DealerAgreement.AdjacentStatesAgree` | backend/app/confirmation/vnext.py:1008-1060 | both adjacency states follow from the cells at the floor strike on the two nearest expirations; they part exactly on zero-valued cells |
| `DealerAgreement.NotAlignedAgainstUnavailable` | backend/app/confirmation/workspace_v3.py:182-200 | a surface with a single zero-valued adjacent cell: v3 says NOT_ALIGNED, vNext UNAVAILABLE |
| `DealerAgreement.FloorIsGreatest` | backend/app/confirmation/workspace_v3.py:248-260 | v3 reports a structure iff there is a spot and an anchor ladder; the floor is the greatest positive net below spot, higher strike on ties, and the hold condition is met iff there is one |
| `DealerArchive.PersistKeeps` | backend/app/dealer_archive/repository.py:89-159 | persisting keeps identities unique and old rows intact; a replay is reused and adds nothing |
| `DealerArchive.ReadBackIsFaithful` | backend/app/dealer_archive/repository.py:162-207 | persist then read back: both readers see what the vendor sent |
| `DealerArchive.BestIsFreshestVisible` | backend/app/dealer_archive/repository.py:210-235 | the as-of query returns a freshest surface captured and observed by the cutoff, and nothing iff none is visible |
| `DealerRuns.ReusableMeaning` | backend/app/dealer_archive/repository.py:50-86 | a reusable run is found iff some run suppresses the capture |
| `DealerRuns.DealerGexArchiver.Persist` | backend/app/dealer_archive/repository.py:89-159 | the archive after persisting one surface |
| `DealerRuns.DealerGexArchiver.CaptureTicker` | backend/app/dealer_archive/service.py:242-353 | one vendor call normalized, persisted and classified |
| `DealerRuns.DealerGexArchiver.CaptureAll` | backend/app/dealer_archive/service.py:204-216 | the budgeted capture loop |
| `DealerRuns.DealerGexArchiver.Execute` | backend/app/dealer_archive/service.py:91-240 | one execution under the lock: rejection, reuse, skips, capture, failure |
| `DealerHistory.FinishedAccounts` | backend/app/dealer_archive/service.py:378-414 | attempted = succeeded + failed; attempted and omitted make up all; COMPLETE iff nonempty and all succeeded |
| `DealerHistory.AttemptsBounded` | backend/app/dealer_archive/service.py:205-216 | the attempt budget is exceeded by less than one call's attempts |
| `DealerHistory.UnitsBounded` | backend/app/dealer_archive/service.py:205-216 | with one unit a call the unit budget is never exceeded |
| `DealerHistory.FreshExecutionIsBounded` | backend/app/dealer_archive/service.py:204-240 | an execution of a fresh archiver stays within its attempt budget plus less than one call's attempts, and within its unit budget |
| `DealerHistory.AttemptsIffRoom` | backend/app/dealer_archive/service.py:204-216 | an execution attempts a ticker iff the usage log leaves budget and there is one; on an exhausted log it omits every ticker and stores nothing |
| `DealerHistory.SecondExecutionOmits` | backend/app/dealer_archive/service.py:204-216 | the concrete pair: the second execution of one object attempts nothing where a fresh object would |
| `DealerHistory.CaptureAccounts` | backend/app/dealer_archive/service.py:204-225 | a finished capture reports every selected ticker once, in order, with that accounting |
| `DealerHistory.CallsKeep` | backend/app/dealer_archive/service.py:133-225 | over any executions each key has at most one complete run started at or after its slot; every run is accounted for (attempted = succeeded + failed, a complete one without omissions); identities stay unique; nothing stored is removed |
| `DealerHistory.ConsumedSlotIsSuppressed` | backend/app/dealer_archive/repository.py:24-47 | once a slot is consumed every later capture of it returns that run and changes nothing |

## Left out

- HTTP transport, retries and header parsing: a vendor call is one event with its attempts, quota flag, delay and answer.
- SQL, sessions and advisory locks; a second execution that finds the lock taken fails before touching anything and is not modelled.
- SHA-256 and JSON encoding; time zones, `exchange_calendars` and pandas; float and `Decimal` rounding.
- Free-form provenance, audit records, detail dictionaries and label texts that no decision reads.
- Ticker filters of the payload and action queries of a materialization step: answers for one ticker ignore the others by `OhlcCatalog.LookupSeesOnlyReceivedPayloads`.
- The materialization summary's distributions, percentiles, residual-missing report and per-ticker composition (`backend/app/research/materialization.py:824-921`): reports over data already covered.
- `build_clusters`' normalized scores, its progression shape and premium-weighted centre: expressions over one group.
- `calculate_price_context`'s returns, averages, ATR and trend, `term_context_for_expiry`, stock-state and IV-rank normalization: functions of evidence that is already frozen.
- The v3 reader's nearby-lower-nodes list and audit entries; `load_stage4_candidate_projection`'s result ordering by score; the radar query's latest-date selection.
- Vendor date-text parsing is an arbitrary function; run trigger texts are taken as stripped and lower-cased.
- Duplicate expirations of one surface and contract symbols repeated across expiries end in a storage conflict, as the unique constraints of `backend/app/db/models.py:988-993` and `backend/app/db/models.py:1016-1021` do.
- `create_baseline` for an unknown candidate id (a lookup error) and `load_product_candidate`: the candidate is given.
- Dry-run dealer captures and summaries, HTTP success counters and quota-remaining fields.
- A process killed in the middle of a dealer or archive run: executions are atomic or end in the modelled failure.
- ChainParser.ParseCompleteChain: bid, ask, greeks, quote and underlying fields of a contract are passed through and not modelled.
- ClusterResults.BuildClusterGroups: states the groups only, not the scores, shape and centre computed from them.
- ClusterResults.BuildPositioningClusters: the component breakdown beside the score is not reported.
- FrozenBaseline.NoLookahead: covers what the evaluation reads from payloads, chain rows, surfaces and bars; the trigger's own source rows are immutable and enter as the candidate's expirations.

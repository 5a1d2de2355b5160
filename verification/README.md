# EventFrame: verified kernels

A Dafny model of the algorithmic kernels of EventFrame, a memory runtime that recalls events, forecasts their
usefulness and plans when an agent may speak, and proofs of what those kernels keep over every input and every run.
`dafny verify dfyconfig.toml` checks the whole project.

| file | models |
|---|---|
| `Prelude.dfy` | options, set sizes, ordered strings |
| `RealSums.dfy` | sums, inner products and powers of reals, as the numeric loops accumulate them |
| `FixedShare.dfy` | the fixed-share forecaster for any number of states: exactness against all state sequences, tracking bound |
| `ForecastMix.dfy`, `Grid.dfy`, `GridForecast.dfy` | its two instances: the mixture of four expert laws and the 21-state working belief |
| `QuietHours.dfy` | daily quiet hours as planner and adapter read them |
| `Tau.dfy`, `TauRequest.dfy` | the turn planner, its robustness guarantee, and which requests it accepts |
| `TauWorst.dfy` | the other side of that guarantee: laws inside the radius under which no more can be promised |
| `TauFit.dfy`, `TauEvidence.dfy` | the histogram forecaster that feeds the planner, and the evidence it counts |
| `AgencyAdapter.dfy`, `AdapterRules.dfy` | when the adapter delivers, why it refuses, and why a planned turn keeps its guarantee |
| `FuzzQueue.dfy`, `FuzzOrder.dfy` | the background fuzz queue as an object and as a system of interleaved steps |
| `RunLength.dfy`, `ChangeModel.dfy` | capped Bayesian changepoint detection, and what it computes: sums over all sequences of changes |
| `Drift.dfy`, `Resets.dfy` | drift detectors, resets and cooldown, and exactly when a reset is committed |
| `Graph.dfy`, `GraphTrails.dfy` | dependency closure, reachability and unresolved burden |
| `Lru.dfy`, `RankDelta.dfy`, `RankReads.dfy` | the write-through rank-delta store: a linked LRU cache in front of a table |
| `Packing.dfy`, `PacketRules.dfy` | packet selection, diversity reordering and evidence correlation |
| `TauHandles.dfy`, `Snapshots.dfy` | uncertain execution handles; when captured snapshots still stand |
| `Opportunities.dfy`, `AgencyRules.dfy` | the store of scheduled-turn proposals: queueing, leases, resolution, and one opportunity at a time |
| `LawMetrics.dfy`, `Translation.dfy`, `TranslationRules.dfy` | total variation metrics and the chain translation audit |

Floats are `real`, instants are integers counting nanoseconds from the zero time of Go, and identities are opaque.
Strings are sequences of bytes, one character a byte, so lengths and prefixes are the ones Go computes.
Loops and objects of the source are methods and classes here, each proved equal to a specification function or
predicate; the theorems are lemmas about those specifications. What a specification means is said a second time, from
the fields and numbers alone, in the modules named second.

Findings about the code:

- The cap on run lengths disturbs more than the longest class. Evidence and posterior are those of exact changepoint
  inference for runs of up to MaxRun+2 outcomes (`ExactUpToCap`), the evidence for no longer ones (`ExactIff`,
  `FirstInexactLength`); for every run they are exact when a regime's prediction remembers its last MaxRun+1 outcomes
  (`ChangeModel.FilterIsExact`).
- One opportunity at a time rests on the clocks. It holds while no approval reads an earlier time than a queueing before
  it (`RunIsExclusive`, `CooldownUnlessCancelled`), and with any lag it can fail (`CooldownHoldsIff`): an approval one
  nanosecond behind is enough for two approvals to stand within one cooldown (`OneBehindLetsTwoIn`). Whatever the clocks,
  a run keeps it if and only if each approval is clear of live and approved proposals when it happens
  (`RunIsExclusiveIff`). The service reads the clock before the store takes its lock
  (internal/service/service.go:1872, 1917, 1956), so overlapping calls can reach the store out of order.
- An execution can be reported uncertain while another proposal of its scope is live (`ReportIsBesideIff`,
  `UncertainBesideLive`); that one can never be approved meanwhile (`ApprovalNeeds`) and the next claim closes it
  (`ClaimClears`).
- The comment at internal/translation/evaluate.go:98-99 says an aggregate defect can hide a terminal mismatch. For laws
  of equal mass it cannot; within twice the 1e-9 mass tolerance it can, for every request and threshold
  (`TerminalCheckIsImplied`, `TerminalCheckCanDecide`).
- The comment at internal/store/tau.go:72-73 says every non-agency mutation leaves the agency version alone. A deletion
  that cancels proposals advances both (internal/store/memorystore/store.go:843-855); the other versions it advances
  still make the forecast stale (`TauCompatibleIffOnlyAgency`).
- The ingestion map is bounded by 4096 entries only while nothing but ingestions happens: an entry goes only if the step
  4096 versions later also records one, and a run with gaps keeps them all (`RetainedExactly`,
  `SteadyIngestionIsBounded`, `SparseIngestionIsUnbounded`).
- At version 2^64-1 no journal snapshot is compatible, not even with itself (`CompatibleWithItselfIff`).
- Two tenant names of which one continues the other across a NUL byte share cache keys, and one is then answered with
  the other's records (`CacheKeysDistinctIff`, `ReadsAreExactIff`).
- A record that expires exactly at the Unix epoch comes back without expiry (`RoundTripsIffStorable`).
- A batch that changes a cached rank delta and then restores it leaves the change in the table
  (`PutBatchIsUpserts`, `ChangeThenRestore`).
- Adaptive "expansion" can shrink the packet below the requested size (`ExpansionBounds`).
- Equal quiet-hour endpoints would mean "always" to the planner and "never" to the adapter; planner validation rejects
  them (`PlannerAndAdapterAgree`).

## Model

| member | source | states |
|---|---|---|
| FixedShare.FilterIsExact | internal/bayes/forecast_mix.go:29-92 | For any number of states, any starting law and any outcome sequence, the share-then-Bayes recursion is exact inference in the reset model: its evidence equals the sum of joint probabilities over every enumerated state sequence, and its stored weights times the evidence equal the sum over sequences ending in each state |
| FixedShare.AllPathsComplete | internal/bayes/forecast_mix.go:29-45 | The enumeration that the exactness theorem sums over contains a sequence if and only if it names one existing state per outcome |
| FixedShare.AllPathsDistinct | internal/bayes/forecast_mix.go:29-45 | That enumeration lists every state sequence once, so nothing is summed twice |
| FixedShare.TrackingBound | internal/bayes/forecast_mix.go:41-43 | Against any state sequence with k switches the cumulative likelihood is at least floor times (1-share)^(T-1-k) times (share times floor)^k times the likelihood of the states followed, in product form without logarithms |
| FixedShare.SharedIsLaw | internal/bayes/forecast_mix.go:41-43 | Sharing mass back to the starting law maps laws to laws |
| FixedShare.UpdatedIsLaw | internal/bayes/forecast_mix.go:79-90 | Reweighing by positive likelihoods and dividing by the sum maps laws to laws; the divisor is positive |
| ForecastMix.PredictiveWeights | internal/bayes/forecast_mix.go:29-45 | The loops compute the share step on usable stored weights and fall back to the fixed prior on malformed ones |
| ForecastMix.PredictiveIsLaw | internal/bayes/forecast_mix.go:29-45 | Whatever four numbers were stored, the law used to forecast is a probability vector |
| ForecastMix.ExpertsValid | internal/bayes/forecast_mix.go:47-54 | Accepts exactly the expert quadruples inside [0,1] |
| ForecastMix.Forecast | internal/bayes/forecast_mix.go:58-68 | The accumulated forecast is the inner product of the predictive law with the clipped experts, one half for invalid experts |
| ForecastMix.ForecastIsProbability | internal/bayes/forecast_mix.go:58-68 | Every forecast stays in [1e-6, 1-1e-6], and the likelihood the mixture gives to failure is one minus its forecast, so forecasts are the factors of the evidence |
| ForecastMix.Observe | internal/bayes/forecast_mix.go:73-92 | The loops compute Bayes on the predictive law with tempered clipped likelihoods; invalid experts or non-positive weight leave the state alone |
| ForecastMix.WeighExperts | internal/bayes/forecast_mix.go:78-87 | The loop leaves in each place the law times the tempered likelihood and returns their sum |
| ForecastMix.DivideAll | internal/bayes/forecast_mix.go:88-90 | The last loop divides every weight by that sum |
| ForecastMix.ObservedIsLaw | internal/bayes/forecast_mix.go:73-92 | Every accepted observation leaves a probability vector, whatever was stored and for every evidence weight |
| ForecastMix.RunIsFilter | internal/bayes/forecast_mix.go:58-92 | Along any run of full-weight observations the stored weights are the exact fixed-share posterior and the product of forecasts is its evidence |
| ForecastMix.MixTrackingRegret | internal/bayes/forecast_mix.go:27-92 | For any run and any expert path with k switches, the product of forecast likelihoods is at least 0.1 times 0.998^(T-1-k) times 0.0002^k times the product of the followed experts' clipped likelihoods |
| ForecastMix.RunWeightsAreLaw | internal/bayes/forecast_mix.go:73-92 | Over whole runs, any weights included, the stored vector is all zeros or a probability vector |
| ForecastMix.UpdateForecastWeights | internal/bayes/forecast_mix.go:17-25 | A reset clears the weights; a disabled or version-mismatched record changes nothing; otherwise the record is observed |
| ForecastMix.ResetForgets | internal/bayes/forecast_mix.go:14-25 | The weights after any sequence of deliveries depend only on what was delivered under matching versions since the last reset |
| Grid.GridPrior | internal/bayes/grid.go:18-38 | The loops compute the share step on a usable belief of the same policy and the uniform law otherwise or on reset |
| Grid.GridMean | internal/bayes/grid.go:40-46 | The running sum is the inner product with the 21 clipped success rates |
| Grid.WeighStates | internal/bayes/grid.go:56-67 | The loop leaves in each state the law times the likelihood, full weight skipping the power, and returns their sum |
| Grid.UpdateGrid | internal/bayes/grid.go:50-74 | One observation stores the reweighed law, under the policy's identity, with exactly the forecast that a later read recomputes |
| Grid.NextWeightsAreLaw | internal/bayes/grid.go:50-71 | The stored weights are a probability vector after any update, from any stored belief and with any evidence weight |
| Grid.PredictionInRange | internal/bayes/working.go:82-89 | The forecast read from any belief, malformed or foreign ones included, lies in [.01,.99] |
| Grid.StoredForecastIsRecomputed | internal/bayes/grid.go:71-74 | The stored PredictiveUseful equals what PredictiveMean recomputes from the stored weights, and lies in [.01,.99] |
| Grid.ResetIsFirst | internal/bayes/grid.go:18-22 | An update that carries a reset stores exactly what a first update from nothing would |
| Grid.RunIsFilter | internal/bayes/grid.go:15-74 | Over any full-weight run with resets anywhere, the stored weights are the exact posterior over grid states of the current regime |
| Grid.GridTrackingRegret | internal/bayes/grid.go:15-74 | Within the current regime, against every grid path with k switches, the product of predictive likelihoods is at least (1/21) times 0.98^(T-1-k) times (0.02/21)^k times the path's likelihood |
| QuietHours.TauQuietBlocked | internal/agency/tau.go:124-141 | True if and only if some instant of [start,end] lies in the daily quiet window of some day, past-midnight windows included; starting one day early suffices and the day loop ends |
| QuietHours.PlannerAndAdapterAgree | plugin/src/agency.ts:317-321 | Planner and adapter read the same hours as the same instants if and only if the two endpoints differ |
| QuietHours.NextQuietEnd | plugin/src/agency.ts:323-329 | Deferral lands on the hour mark of the same UTC day when that is later, otherwise of the next day |
| QuietHours.QuietEndIsFirst | plugin/src/agency.ts:323-329 | For an instant in quiet hours the deferral is the first later instant that is not quiet |
| Tau.ValidateTau | internal/agency/tau.go:60-115 | Accepts exactly the valid requests and attributes a refusal to the first group of rules that fails |
| Tau.ValidateAtoms | internal/agency/tau.go:67-84 | The atom loop accepts exactly bounded, in-horizon, delay-sorted, pairwise different atoms and totals their mass with the no-event mass |
| Tau.ValidateCandidates | internal/agency/tau.go:98-104 | The loop accepts exactly strictly increasing offsets inside the horizon |
| Tau.Candidates | internal/agency/tau.go:22-32 | Supplied offsets are used as they are; otherwise one is derived from each target atom |
| Tau.MassBetween | internal/agency/tau.go:42-47 | The inner loop computes the forecast mass of the target inside the window |
| Tau.Evaluate | internal/agency/tau.go:34-52 | A candidate survives the loop body if and only if its dispatches are in time, none of them can be quiet, and it meets the probability floor and the margin |
| Tau.PlanTau | internal/agency/tau.go:17-58 | Plans exactly the valid requests, and returns the admissible candidate of greatest conservative utility, ties going to the earliest, or no turn if and only if none is admissible |
| Tau.ScheduledTurnIsRobust | internal/agency/tau.go:33-57 | When a turn is scheduled, under every law within half-L1 distance TVRadius of the forecast, on any finite support, every dispatch from DeliverAt to LatestDispatch has expected utility at least LowerUtility, which exceeds the positive margin |
| Tau.WindowLoses | internal/agency/tau.go:48-49 | No law within the radius can take more from a window than the radius plus half the mass the forecast has in excess of one |
| Tau.WindowMassIsLawMass | internal/agency/tau.go:42-47 | The running mass equals the window's probability under the forecast read as a law on any support that carries it |
| Tau.WindowIsUseful | internal/agency/tau.go:39-41 | The counted window lies inside the useful window of every dispatch the slack allows |
| Tau.DeductionIsTight | internal/agency/tau.go:49-49 | A valid request and a law inside the radius for which the scheduled turn is worth exactly LowerUtility: the 1e-12 deduction pays for the mass tolerance and nothing more |
| AgencyAdapter.EvaluateProposal | plugin/src/agency.ts:235-269 | Allowed at an instant if and only if every authority, availability and configuration condition holds and it is the first non-quiet instant from the one asked for, before the deadline; otherwise refused for the first reason, in the order checked, that applies |
| AgencyAdapter.CheckAuthority | plugin/src/agency.ts:240-247 | No refusal if and only if kill switch, tenant, consent, capability, chain depth and session all allow it; otherwise the first of them that does not |
| AgencyAdapter.FirstPermittedUnique | plugin/src/agency.ts:263-265 | The delivery instant is determined: there is only one first permitted instant |
| AgencyAdapter.RefusedOnlyWhenNothingFits | plugin/src/agency.ts:253-268 | An authorised and available proposal is allowed whenever any non-quiet instant before the deadline exists, and never delivered later than such an instant |
| AgencyAdapter.AllowedTurnKeepsItsUtility | plugin/src/agency.ts:248-268 | A planned turn that the adapter allows, its instants read to the millisecond, is dispatched inside the signed allowance, so its expected utility under every law in the radius is still at least the reported one |
| TauFit.FitTau | internal/agency/tau.go:145-207 | Succeeds exactly on well-formed bins and evidence, and returns the histogram with one pseudo-count per class |
| TauFit.CountEpisodes | internal/agency/tau.go:162-200 | The loop accepts exactly the acceptable episode lists and leaves in each class one plus the number of its episodes |
| TauFit.CheckEpisode | internal/agency/tau.go:168-199 | One turn decides whether the list stays acceptable and finds the class: no-event, or the first bin whose edge is at least the delay |
| TauFit.EpisodesDisjoint | internal/agency/tau.go:176-182 | Accepted episodes of one session are pairwise disjoint in time, not only neighbouring ones |
| TauFit.CountsTotal | internal/agency/tau.go:149-201 | The counts total episodes plus classes: every episode is counted exactly once |
| TauFit.ClassExists | internal/agency/tau.go:184-199 | Every acceptable episode falls in one and only one class |
| TauFit.FittedLawIsValid | internal/agency/tau.go:201-206 | The fitted law sums to exactly one and passes the planner's support and mass checks; its atoms pass if and only if the target name is bounded, its identity if and only if it is issued inside its own horizon |
| FuzzQueue.BackgroundFuzzQueue.ReserveKey | internal/service/background_fuzz.go:216-230 | Under the lock expired entries go, then a key without entry is reserved with the zero time and any other call is counted as duplicate |
| FuzzQueue.BackgroundFuzzQueue.Send | internal/service/background_fuzz.go:232-238 | The send succeeds exactly when the channel has room and otherwise changes nothing |
| FuzzQueue.BackgroundFuzzQueue.Enqueue | internal/service/background_fuzz.go:216-247 | An undisturbed call is accepted exactly when its key is neither live nor cooling down and the channel has room; a dropped job leaves only its counter behind |
| FuzzQueue.BackgroundFuzzQueue.CountSent | internal/service/background_fuzz.go:234-237 | Counting a sent job changes one counter |
| FuzzQueue.BackgroundFuzzQueue.ReleaseKey | internal/service/background_fuzz.go:241-245 | Rollback removes the key and counts the drop |
| FuzzQueue.BackgroundFuzzQueue.Receive | internal/service/background_fuzz.go:264-268 | The worker takes the oldest job, if any, without blocking |
| FuzzQueue.BackgroundFuzzQueue.MarkRunning | internal/service/background_fuzz.go:274-276 | Starting a job changes only the running flag |
| FuzzQueue.BackgroundFuzzQueue.Complete | internal/service/background_fuzz.go:278-318 | Completion stores the summary of how the job ended, conditional invariants counted, starts the cooldown of its own key and counts exactly one verdict |
| FuzzQueue.InvariantAlways | internal/service/background_fuzz.go:216-319 | Key ownership and the accounting identities hold after every finite interleaving of calls and worker steps |
| FuzzQueue.OwnedStep | internal/service/background_fuzz.go:216-318 | Every single step, of any thread, keeps the number of live jobs of each key equal to one if its entry is the zero time and to zero otherwise |
| FuzzQueue.ReachableStatus | internal/service/background_fuzz.go:224-246 | In every reachable state a key has at most one live job, the channel is within capacity, there is a last result exactly when some job is done, and enqueued plus sent-but-uncounted equals completed plus failed plus stale plus queued plus the one held by the worker |
| FuzzQueue.EveryCallCountedOnce | internal/service/background_fuzz.go:224-246 | At all times calls made equal enqueued plus dropped plus deduplicated plus calls in flight, so every call ends in exactly one counter |
| FuzzQueue.CooldownStep | internal/service/background_fuzz.go:219-223 | No purge, rollback or completion of another job ends a cooldown before a clock reading reaches it, and until then calls for the key are refused |
| FuzzQueue.CooldownPersists | internal/service/background_fuzz.go:216-318 | The same over every interleaving in which no call reads a clock at or after the end of the cooldown |
| FuzzQueue.ReadmissionNeedsCooldown | internal/service/background_fuzz.go:281-310 | After completion at c a key is admitted again only if that call or an earlier one read a clock of at least c plus the cooldown |
| RunLength.UpdateRunLength | internal/bayes/changepoint.go:42-86 | On any stored state and any policy: an invalid policy changes nothing, a state without usable arrays starts afresh, a total that is not positive and finite gives the fallback, and otherwise the loops compute the specified law and evidence |
| RunLength.MoveRunLengths | internal/bayes/changepoint.go:55-65 | The first loop splits each run length's mass between a change and growth, the last class keeping what grows past it, and totals it |
| RunLength.ShiftEvidence | internal/bayes/changepoint.go:72-77 | The second loop moves each class's evidence up one and adds the outcome |
| RunLength.SumArray | internal/bayes/changepoint.go:62-65 | The normaliser is the sum of the moved masses |
| RunLength.RawTotals | internal/bayes/changepoint.go:55-61 | While moving, mass is conserved: it is split between hazard times one half and survival times the runs' predictions, and nothing else |
| RunLength.GoodStep | internal/bayes/changepoint.go:42-79 | From a good state: three equal-length arrays of at most MaxRun+1 entries, a law, evidence at least one and at most index+3 per class; the fallback branch is never taken; and the result is (h/2)/(h/2+(1-h) times mean predictive) |
| RunLength.GoodBounds | internal/bayes/changepoint.go:28-37 | In a good state every class has alpha plus beta at most MaxRun+3 |
| RunLength.EvidenceIsRecentCounts | internal/bayes/changepoint.go:72-77 | After any run, index i has counted exactly the successes and failures of the last i+1 outcomes, whether or not the cap was reached |
| RunLength.RegimeRenewal | internal/bayes/changepoint.go:55-71 | In every run, for every run length below the cap, evidence times posterior equals the evidence before that regime, times hazard, survival and the regime's Beta-Bernoulli marginal likelihood |
| RunLength.UnbrokenRenewal | internal/bayes/changepoint.go:55-71 | While the run is not longer than the cap, the class without a change carries survival times the marginal likelihood of everything observed |
| RunLength.MarginalStep | internal/bayes/changepoint.go:57-57 | Successive marginal likelihoods have the predictive (successes+1)/(n+2) as their ratio |
| ChangeModel.LongMemoryIsTrue | internal/bayes/changepoint.go:55-61 | Outcome by outcome, a sequence of change choices weighs what the model says regime by regime, hazard and survival times each regime's marginal likelihood, as long as no regime outgrows the memory |
| ChangeModel.FilterIsExact | internal/bayes/changepoint.go:55-77 | In every run, however long, the evidence is the sum over all sequences of change choices, and evidence times each posterior entry the sum over those ending in its class, in the model whose predictions remember the last MaxRun+1 outcomes of the regime |
| ChangeModel.ExactUpToCap | internal/bayes/changepoint.go:55-71 | Up to MaxRun+2 outcomes those sums are the true ones: the evidence is the probability of the data and the whole posterior is exact Bayesian changepoint inference |
| ChangeModel.RegimePosteriorIsExact | internal/bayes/changepoint.go:55-71 | Up to MaxRun+2 outcomes the probability of the data times a posterior entry is the probability of what came before the regime, times hazard, survival and its marginal likelihood |
| ChangeModel.FirstInexactLength | internal/bayes/changepoint.go:59-60 | At MaxRun+3 outcomes the evidence is wrong for every run: too low when the last outcome repeats the first, forgotten one, too high otherwise |
| ChangeModel.SteadyIsUndervalued | internal/bayes/changepoint.go:59-60 | Beyond MaxRun+2 outcomes every run that never varies is undervalued |
| ChangeModel.ExactIff | internal/bayes/changepoint.go:59-60 | The evidence is the probability of the data for all runs of a length if and only if that length is at most MaxRun+2 |
| Drift.UpdateDrift | internal/bayes/changepoint.go:130-178 | The stepwise update computes the drift specification: warm-up, CUSUM or fast/slow streaks, and the trigger |
| Drift.RecentRunProbability | internal/bayes/changepoint.go:121-128 | The loop sums the first window+1 probabilities |
| Drift.ApplyOutcomeAuthorized | internal/bayes/changepoint.go:88-119 | On any state and policy detectors advance; a reset is committed if and only if detection and authority coincide outside cooldown, and then the trigger outcome is the only evidence left |
| Drift.CusumIsBestSuffix | internal/bayes/changepoint.go:151-157 | For every regime the recursive sums are the largest, and smallest, sum over suffixes of residual minus, and plus, slack |
| Drift.WarmUpIsQuiet | internal/bayes/changepoint.go:144-150 | During warm-up the slow mean times n is exactly the number of successes and both sums are zero |
| Drift.AlarmMeansStretch | internal/bayes/changepoint.go:151-158 | Within a regime the detector fires if and only if some stretch of outcomes ending now has strayed from the slow mean, beyond the slack, by the threshold |
| Drift.CusumIsSymmetric | internal/bayes/changepoint.go:155-158 | Exchanging success and failure mirrors the detector: the sums change sign and sides, the means are complements, and the alarms are the same |
| Drift.SoundStep | internal/bayes/changepoint.go:88-119 | Every outcome, reset or not, leaves detector state the next update can use |
| Drift.ResetsAreApart | internal/bayes/changepoint.go:89-109 | In every run any two outcomes that commit a reset have at least CooldownSamples others between them |
| Drift.EvidenceAccumulates | internal/bayes/changepoint.go:110-115 | Between resets alpha, beta and support grow by exactly the delivered success, failure and total weights |
| Drift.ResetKeepsOnlyTheTrigger | internal/bayes/changepoint.go:103-115 | A committed reset leaves one outcome's worth of evidence and a detector that has seen only that outcome |
| Drift.RegimeIsFollowed | internal/bayes/changepoint.go:99-100 | Within a regime the live detector is the one the batch theorems describe |
| Graph.BuildAdjacency | internal/graph/graph.go:94-100 | The adjacency lists represent exactly the undirected edges |
| Graph.BuildNodeMap | internal/graph/graph.go:238-244 | A later node of the same identity replaces an earlier one |
| Graph.BuildEdgeMap | internal/graph/graph.go:245-251 | A later edge of the same identity replaces an earlier one |
| Graph.DiffersFrom | internal/graph/graph.go:73-82 | Finds exactly the identities missing from or different in the other graph, absent and empty lists told apart |
| Graph.EndpointsOf | internal/graph/graph.go:84-93 | Collects exactly the endpoints of the given edges as one graph records them |
| Graph.SeedOf | internal/graph/graph.go:72-93 | The seed is exactly the changed nodes and the endpoints, in either graph, of changed edges |
| Graph.Spread | internal/graph/graph.go:101-115 | The bounded search returns exactly the identities within radius undirected steps of the seed |
| Graph.Advance | internal/graph/graph.go:104-114 | One layer adds exactly the unseen neighbours of the frontier |
| Graph.TouchedEdges | internal/graph/graph.go:119-125 | Collects exactly the edges with an affected endpoint |
| Graph.Carried | internal/graph/graph.go:126-136 | Collects exactly the events and posterior keys of affected nodes |
| Graph.DependencyClosure | internal/graph/graph.go:70-140 | Lists exactly the affected nodes, the edges of either graph that touch them, and the events and posteriors they carry, each once and in order |
| Graph.StepsAreWalks | internal/graph/graph.go:103-115 | The step count of the specification counts explicit undirected walks |
| Graph.UnlistedIsUnchanged | internal/graph/graph.go:70-140 | Every node and every edge outside the closure is identical in both graphs |
| Graph.ClosureGrows | internal/graph/graph.go:103-115 | A larger radius never loses a node |
| Graph.EmptyIffUnchanged | internal/graph/graph.go:70-116 | The closure has no nodes if and only if the two graphs agree node for node and edge for edge |
| Graph.Reachable | internal/graph/graph.go:220-236 | The worklist search ends and is true if and only if a walk of at least one step joins the endpoints |
| Graph.Visit | internal/graph/graph.go:225-232 | One visit either finds the target or queues exactly the unseen neighbours, and the work left does not grow |
| Graph.ReachesIsWalk | internal/graph/graph.go:220-236 | For distinct endpoints what the search decides is the existence of an undirected walk between them |
| Graph.UnresolvedBurden | internal/graph/graph.go:142-159 | Refuses invalid obligations and otherwise totals the weights of exactly those not discharged by a walk |
| Graph.MoreEdgesLessBurden | internal/graph/graph.go:142-159 | Adding nodes and edges never raises the burden |
| Graph.NoBurdenIffAllResolved | internal/graph/graph.go:149-158 | The burden is zero if and only if every obligation is discharged |
| Lru.Cache.Get | internal/rankdelta/store.go:292-301 | A hit returns the cached record and moves it to the front, a miss changes nothing; list and index stay consistent |
| Lru.Cache.Put | internal/rankdelta/store.go:303-318 | A write replaces in front, or adds in front and drops the back entry beyond capacity; list and index stay consistent |
| Lru.Cache.constructor | internal/rankdelta/store.go:288-290 | A new cache is empty |
| Lru.Cache.Overwrite | internal/rankdelta/store.go:306-310 | Rewriting a cached key replaces its record in place and moves it to the front |
| Lru.Cache.PushFront | internal/rankdelta/store.go:311-312 | A new entry goes in front, the rest keeps its order |
| Lru.Cache.RemoveBack | internal/rankdelta/store.go:313-317 | Only the back entry leaves, from list and index alike |
| Lru.Cache.MoveToFront | internal/rankdelta/store.go:299-299 | Moving an element keeps the list duplicate-free, its members and the index |
| Lru.IndexAgrees | internal/rankdelta/store.go:276-290 | A duplicate-free list and its index answer every lookup alike |
| Lru.TouchedKeepsContents | internal/rankdelta/store.go:292-301 | A lookup never changes what any lookup returns |
| Lru.StoredContents | internal/rankdelta/store.go:303-318 | After a write every lookup is as before except for the written key and, when a new key meets a full cache, the back entry |
| Lru.RecencyStep | internal/rankdelta/store.go:299-317 | One hit or write keeps the cache at exactly the most recently used distinct keys, in order of use |
| Lru.RunHoldsRecent | internal/rankdelta/store.go:281-318 | After any sequence of lookups and writes on an empty cache it holds exactly the capacity many keys used last, each with the record written last, told from the operations alone |
| RankDelta.SQLiteStore.GetBatch | internal/rankdelta/store.go:114-163 | Whatever rows arrive, in whatever order, the passes compute the read specification, an incomplete answer is an error that keeps only the cache entries, and the table is left alone |
| RankDelta.SQLiteStore.PutBatch | internal/rankdelta/store.go:165-230 | The passes compute the write specification; a refusal or a failed transaction has written and cached nothing |
| RankDelta.SQLiteStore.Commit | internal/rankdelta/store.go:215-228 | The transaction upserts in order, and only then the cache is written |
| RankDelta.SQLiteStore.constructor | internal/rankdelta/store.go:59-63 | An unset or non-positive size means one hundred thousand entries; the cache starts empty |
| RankDelta.RoundTripsIffStorable | internal/rankdelta/store.go:236-272 | A record read back equals the record written if and only if both instants fit 64-bit nanoseconds and it does not expire at the Unix epoch |
| RankDelta.CacheKeysDistinctIff | internal/rankdelta/store.go:274-274 | Within a set of tenants the cache key separates all records if and only if no tenant name followed by the separator is a prefix of another |
| RankDelta.GetBatchIsExact | internal/rankdelta/store.go:114-163 | On a coherent cache, whatever order the rows arrive in, a read returns exactly the requested non-empty keys whose row is ValidFor, with those rows, if and only if no usable cached record of another tenant answers a requested key; with any rows at all the cache stays coherent |
| RankDelta.NoClashNoMistake | internal/rankdelta/store.go:126-129 | Tenants whose names do not clash are never mistaken for each other |
| RankDelta.ReadsAreExactIff | internal/rankdelta/store.go:114-274 | For a set of tenants every read in every orderly run returns exactly the valid rows if and only if no two of their names clash |
| RankDelta.ClashMisleads | internal/rankdelta/store.go:274-274 | For any two clashing tenants one write by the one makes a read by the other return its record |
| RankDelta.PutTriedIs | internal/rankdelta/store.go:193-225 | A transaction that fails leaves the table and every answer of the cache as they were |
| RankDelta.RunHoldsLastUsed | internal/rankdelta/store.go:114-318 | Over every sequence of calls the store's cache is the least recently used one of the lookups and writes those calls make |
| RankDelta.PutBatchEffect | internal/rankdelta/store.go:165-230 | A batch is refused if and only if some record is unacceptable; otherwise exactly the records not already cached are upserted, and each cache entry afterwards is the last word on its key or an untouched old entry |
| RankDelta.PutBatchKeepsCoherence | internal/rankdelta/store.go:214-228 | After any batch of storable records, accepted or refused, every cached record equals its table row |
| RankDelta.UnstorableBreaksCoherence | internal/rankdelta/store.go:215-228 | Writing one new acceptable record keeps cache and table in agreement if and only if the record is storable |
| RankDelta.PutBatchIsUpserts | internal/rankdelta/store.go:170-192 | Up to update times the table equals plain upserts of the whole batch if and only if no key's last record is skipped after an earlier one of that key was written |
| RankDelta.DistinctKeysAreFaithful | internal/rankdelta/store.go:170-192 | Naming each key once is enough for that |
| RankDelta.ChangeThenRestore | internal/rankdelta/store.go:174-192 | A batch that changes a cached record and then restores it leaves the change in the table |
| RankDelta.RunIsSound | internal/rankdelta/store.go:114-230 | Over every sequence of calls, failing ones included, from any table and an empty cache, the cache stays coherent and within capacity and the table, update times aside, is what the same calls do without a cache |
| RankDelta.ReadsSeeTheTable | internal/rankdelta/store.go:114-163 | Every read of such a run by non-clashing tenants returns exactly the valid rows of the table at that moment |
| Packing.JaccardLaw | internal/epistemic/evidence.go:133-144 | Word overlap is symmetric, within [0,1], and one exactly for equal non-empty sets |
| Packing.CorrelatedSymmetric | internal/epistemic/evidence.go:56-64 | Correlation does not depend on the order of its arguments |
| Packing.ExpansionBounds | internal/packing/packing.go:39-45 | Adaptive packing at most doubles the packet, and makes it smaller than plain packing if and only if it triggers while the recall count or the hard cap is below the requested size |
| Packing.OverlapBounds | internal/packing/packing.go:110-116 | The overlap penalty is within [0,1] and is the largest pairwise overlap with what is selected |
| Packing.Penalty | internal/packing/packing.go:110-116 | The loop computes that penalty from the tokenised frames |
| Packing.Best | internal/packing/packing.go:107-125 | The scan returns the first index of greatest adjusted score |
| Packing.Diversify | internal/packing/packing.go:99-131 | The loop returns the specified reordering |
| Packing.ReorderedIsGreedy | internal/packing/packing.go:99-131 | The reordering is a permutation; each of its first limit places beats everything after it given what precedes it, ties going to the earlier candidate; beyond the limit the original order stands |
| Packing.Describe | internal/packing/packing.go:53-60 | A memoised descriptor is the one derived from the event |
| Packing.CountConflicts | internal/packing/packing.go:69-78 | The loop counts the packed records that conflict, with descriptors memoised by event |
| Packing.ConflictsCount | internal/packing/packing.go:69-78 | That count is the number of conflicting places in the packet |
| Packing.Select | internal/packing/packing.go:38-87 | The selection computes the specified packet, token use, expansion flag and suppression count |
| Packing.PackedIsGood | internal/packing/packing.go:62-85 | Every packet is a subsequence within the count and, once anything is packed, the token limit, its token use is the sum, and nothing in it was crowded out by what precedes it |
| Packing.PackedDecision | internal/packing/packing.go:62-85 | A candidate is packed if and only if, given those packed before it, count and tokens leave room and it is not crowded by correlated evidence |
| Packing.PackedIsMaximal | internal/packing/packing.go:62-85 | When the packet is not full, a candidate left out could still be added only if what was packed after it gave tokens back; with non-negative estimates none could |
| Packing.NegativeEstimateMakesRoom | internal/packing/packing.go:66-68 | A negative estimate would leave out a candidate there is room for in the end |
| Packing.OnePerClaim | internal/packing/packing.go:70-82 | With an occupancy limit of one, two packed records are correlated only if their buckets are certified distinct |
| Packing.SuppressedCount | internal/packing/packing.go:79-82 | The suppression count is the number of candidates that only correlation kept out |
| TauHandles.AgencyUncertainRecord | internal/store/tau.go:12-36 | The loop computes the reported record, or refuses and returns the record unchanged |
| TauHandles.Holds | internal/store/tau.go:18-24 | The inner loop decides membership |
| TauHandles.ReportFacts | internal/store/tau.go:13-35 | A report is refused if and only if the known and named handles exceed 32; otherwise old handles stay in place and exactly the named ones are added, duplicate-free |
| TauHandles.HandlesAreKept | internal/store/tau.go:12-36 | Over any run of reports the list stays duplicate-free and within the bound, begins with every earlier list, and holds the handle of every accepted report |
| TauHandles.TauCancellationMatches | internal/store/tau.go:46-63 | The loops accept exactly duplicate-free lists as long as the record's, within the bound, that cover it |
| TauHandles.CoversIffPermutation | internal/store/tau.go:44-63 | For a sound record an acknowledgment is accepted if and only if it is a permutation of the non-empty current list |
| TauHandles.StaleAcknowledgmentRefused | internal/store/tau.go:44-45 | An acknowledgment computed before a new handle was reported is refused ever after |
| Snapshots.TauCompatibleIffOnlyAgency | internal/store/tau.go:72-80 | Along any run a forecast's snapshot is compatible if and only if every step since was agency bookkeeping |
| Snapshots.TauIncompatibilityIsPermanent | internal/store/tau.go:72-80 | Once incompatible, a snapshot stays so |
| Snapshots.JournalSnapshotCompatible | internal/store/store.go:36-54 | The version walk, with 64-bit wrap-around, ends, and accepts exactly when semantics match, the current version is below 2^64-1 and every version passed is a recorded ingestion after as_of |
| Snapshots.WalkIsShort | internal/store/store.go:47-52 | The walk is no longer than the map of ingestions is large |
| Snapshots.CompatibleWithItselfIff | internal/store/store.go:44-53 | A snapshot is compatible with itself if and only if its version is below 2^64-1 |
| Snapshots.JournalSplits | internal/store/store.go:36-54 | A span is compatible if and only if both of its parts are, and then for any earlier as_of too |
| Snapshots.RetainedExactly | internal/store/memorystore/store.go:776-782 | An ingestion is forgotten if and only if the step 4096 versions later is also one |
| Snapshots.SteadyIngestionIsBounded | internal/store/memorystore/store.go:776-782 | In a run of ingestions only, the map holds exactly the last 4096 of them, each with its own availability |
| Snapshots.SparseIngestionIsUnbounded | internal/store/memorystore/store.go:776-782 | With 4096 other mutations between ingestions none is ever forgotten, so the map outgrows every bound |
| Snapshots.JournalCompatibleIff | internal/store/store.go:36-54 | Along any run a captured snapshot still stands if and only if every step since was an ingestion available after as_of and there were at most 4096 of them |
| Opportunities.AgencyStore.PutAgencyProposal | internal/store/memorystore/store.go:75-115 | Queues the proposal exactly when it is new, compatible, clear of clashes and of blocked opportunities, supported by available evidence, rightly parented and within both budgets; otherwise nothing changes and the answer names an obstacle that stands |
| Opportunities.AgencyStore.CountAgencyChain | internal/store/memorystore/store.go:278-286 | Counts exactly the records of the chain |
| Opportunities.AgencyStore.CountPendingAgency | internal/store/memorystore/store.go:288-296 | Counts exactly the uncertain records and the open ones that have not expired |
| Opportunities.AgencyStore.Sweep | internal/store/memorystore/store.go:133-162 | One pass closes exactly what can no longer be approved, whatever the order of the map, and finds exactly what is due |
| Opportunities.AgencyStore.ClaimAgencyProposals | internal/store/memorystore/store.go:127-185 | Closes what can no longer be approved and hands out exactly the winners, best first |
| Opportunities.WinnersAreFirst | internal/store/memorystore/store.go:163-176 | The proposals handed out, defined as the eligible ones that fewer than limit eligible ones precede, are the head of the sorted list |
| Opportunities.AgencyStore.ResolveAgencyProposal | internal/store/memorystore/store.go:187-253 | The checks, in order, compute the specified answer and the specified record |
| Opportunities.AgencyStore.CancelAgencyByEvidence | internal/store/memorystore/store.go:930-955 | Rejects exactly the open proposals that rest on deleted evidence and reports whether there were any |
| Opportunities.AgencyStore.DeleteBefore | internal/store/memorystore/store.go:907-928 | Deletes only events available before the cutoff, as many as the limit allows, cancels the proposals resting on them, and advances the agency version exactly when it cancelled one |
| Opportunities.Oldest | internal/store/memorystore/store.go:910-915 | The pass selects only events available before the cutoff, all of them or as many as the limit, whatever the order of the map |
| Opportunities.RunIsExclusive | internal/store/tau.go:82-100 | Over every sequence of calls, whatever clocks they read and whatever else mutates the store, as long as no approval reads an earlier time than a queueing before it: no two proposals of one session and target can both still be approved, and standing approvals are a full cooldown apart |
| Opportunities.RunIsExclusiveIff | internal/store/tau.go:82-100 | Under any clocks at all, a run is exclusive throughout if and only if each approval, when it happens, has nothing of its scope live within its cooldown and every standing approval of it a cooldown away |
| Opportunities.ExclusiveStep | internal/store/memorystore/store.go:75-253 | Every call, by any reading not ahead when it queues, keeps that if and only if what it approves is clear in this sense; so queueing, claiming, deleting, refusing and reporting always keep it |
| Opportunities.ApprovalKeepsIff | internal/store/memorystore/store.go:248-252 | An approval by any reading keeps exclusivity if and only if it is clear |
| Opportunities.LateIsInTime | internal/store/memorystore/store.go:226-247 | An approval that does not read an earlier time is always clear |
| Opportunities.ApprovalNeeds | internal/store/memorystore/store.go:219-252 | A proposal becomes approved only from a claim by the consumer that resolves it, before that lease ends, unexpired, compatible and with nothing unresolved in its scope |
| Opportunities.ApprovalIsFenced | internal/store/tau.go:82-100 | At the moment of an approval that reads no earlier time nothing in its scope is uncertain, nothing else can still be approved, and every standing approval is a cooldown past |
| Opportunities.CooldownUnlessCancelled | internal/store/tau.go:82-100 | Over every run in which no approval reads an earlier time than a queueing before it, of two approvals in one scope the later comes a full cooldown after the earlier, unless the earlier execution was cancelled in between |
| Opportunities.ApartUnlessCancelled | internal/store/tau.go:82-100 | Under any clocks, of two approvals in one scope, the later one clear, the readings are a full cooldown apart, unless the earlier execution was cancelled in between |
| Opportunities.CooldownHoldsIff | internal/store/tau.go:82-100 | Over all runs whose approvals lag at most d behind earlier queueings the cooldown holds if and only if d allows no lag |
| Opportunities.OneBehindLetsTwoIn | internal/store/memorystore/store.go:75-253 | From an empty store, with one approval reading the clock a nanosecond behind, a run that ends with two approvals of one scope standing within one cooldown |
| Opportunities.BesideNeedsReport | internal/store/memorystore/store.go:127-253 | Only a report of uncertainty can put an uncertain execution beside a proposal that can still be approved |
| Opportunities.ReportIsBesideIff | internal/store/tau.go:10-36 | An accepted report does so if and only if another proposal of its scope can still be approved |
| Opportunities.UncertainBesideLive | internal/store/memorystore/store.go:75-253 | From an empty store, with clocks in order, a run in which it happens: approved, a successor queued a cooldown later, then reported uncertain |
| Opportunities.ClaimClears | internal/store/memorystore/store.go:133-145 | After any claim no open proposal shares its scope with an uncertain execution, and every turn handed out can still be approved |
| Opportunities.ClockGoingBackLetsTwoIn | internal/store/memorystore/store.go:226-252 | When a later reading takes a proposal for expired and queues its successor, an earlier reading still approves it, and the store stays exclusive if and only if the whole cooldown lies between the two readings |
| LawMetrics.ValidateLaw | internal/fuzzing/fuzzing.go:295-310 | Accepts exactly non-empty laws of the right size with entries in [0,1] and mass within 1e-9 of one |
| LawMetrics.LawDistance | internal/fuzzing/fuzzing.go:312-321 | Returns half the L1 distance and the first index of greatest movement |
| LawMetrics.GapBound | internal/fuzzing/fuzzing.go:312-321 | No event's probability differs between two laws by more than the distance, up to half the mass difference |
| LawMetrics.GapAttained | internal/fuzzing/fuzzing.go:312-321 | The distance is attained at the event where the first law is larger: it is the total variation distance |
| LawMetrics.VariationLaw | internal/fuzzing/fuzzing.go:312-321 | The distance is symmetric and zero exactly for equal laws |
| LawMetrics.MovementBelowVariation | internal/fuzzing/fuzzing.go:312-321 | For validated laws the greatest movement is at most the distance and the distance at most one, up to the mass tolerance; without it for mass exactly one |
| LawMetrics.PredictionMetrics | internal/translation/evaluate.go:264-273 | The loop computes the two movements and the effect defect as half L1 distances |
| LawMetrics.DefectBounds | internal/translation/evaluate.go:264-273 | The defect is at least the difference of the movements and at most their sum |
| LawMetrics.MismatchBelowDefect | internal/translation/evaluate.go:97-100 | At every stage the two effects differ by at most the defect plus half the difference in mass drift, whatever the vectors |
| LawMetrics.DriftOfLaws | internal/translation/evaluate.go:251-260 | Four validated laws drift apart in mass by at most 4e-9, and not at all for equal masses |
| Translation.LocalTransition | internal/translation/evaluate.go:211-222 | True if and only if no field but the allowed one changes and that one changes as expected |
| Translation.EvaluateStage | internal/translation/evaluate.go:196-209 | A stage commutes if and only if both event pairs carry exactly the declared change of their mapped field |
| Translation.Validate | internal/translation/evaluate.go:118-194 | Accepts exactly the well-stated requests: named tenant and query, aligned lengths, thresholds, requested, available, own and pairwise different events in order, and sound stage maps |
| Translation.ValidateChain | internal/translation/evaluate.go:146-168 | The loop accepts exactly chains of the requested, sound, own and available events, new and in order of occurrence and availability |
| Translation.ValidateMaps | internal/translation/evaluate.go:169-192 | The loop accepts exactly contiguous maps with known fields, named and different correspondences, and changes aligned |
| Translation.EvaluateStages | internal/translation/evaluate.go:50-59 | The stage loop decides whether every stage carries its change and whether it reaches every stage |
| Translation.Predict | internal/translation/evaluate.go:243-262 | A prediction is used if and only if it is a law of the chain's length within the mass tolerance |
| Translation.Evaluate | internal/translation/evaluate.go:42-116 | Classifies as translation, or as invariant, if and only if the declared change is carried everywhere and the predictions meet the corresponding conditions; predictions are asked for only when they can matter |
| Translation.TerminalCheckIsImplied | internal/translation/evaluate.go:97-100 | A defect within the threshold bounds the terminal mismatch by the threshold plus 2e-9, and by the threshold for masses exactly one, so the separate terminal check decides only inside that margin |
| Translation.TerminalCheckCanDecide | internal/translation/evaluate.go:97-100 | For every well-stated request whose change is carried and reaches every stage, whatever its threshold, there are answers whose defect passes and that the terminal check alone refuses |
| Translation.CarriedRequest | internal/translation/evaluate.go:42-116 | Such requests exist for every threshold |
| ForecastMix.ForecastIsAverage | internal/bayes/forecast_mix.go:58-68 | For valid experts the forecast lies between the least and the greatest expert, each bounded to [1e-6, 1-1e-6]; so unanimous experts are forecast as themselves |
| ForecastMix.ForecastInNumbers | internal/bayes/forecast_mix.go:29-68 | Weights that are a law to 1e-9 forecast 0.998 of the weighted average of the bounded experts and 0.002 of the fresh forecast; any others the fresh forecast, seven tenths the first expert and one tenth each of the rest |
| ForecastMix.PredictiveInNumbers | internal/bayes/forecast_mix.go:29-45 | The law behind a forecast, weight by weight: 0.998 of the stored one and 0.002 of [0.7, 0.1, 0.1, 0.1], or that alone |
| ForecastMix.ObservedOdds | internal/bayes/forecast_mix.go:73-92 | An accepted observation multiplies the odds of any expert against any other, relative to the predictive law, by the ratio of what each gave to the outcome, to the power of the weight capped at one |
| ForecastMix.FullWeightOdds | internal/bayes/forecast_mix.go:73-92 | At full weight that ratio is bounded(e_j)/bounded(e_i) for a useful outcome and (1-bounded(e_j))/(1-bounded(e_i)) for any other, in product form |
| ForecastMix.LikelihoodsAreGave | internal/bayes/forecast_mix.go:78-87 | The likelihoods in the regret bound are what each bounded expert gave to each outcome |
| ForecastMix.NothingLearnt | internal/bayes/forecast_mix.go:73-76 | An expert outside [0,1] or a weight that is not positive leaves the weights alone, and such experts are forecast as one half |
| ForecastMix.OnlyMatchingIsLearnt | internal/bayes/forecast_mix.go:17-25 | Unless it resets, an outcome moves the weights only if its record was made with the forecaster on and under the current policy and epoch |
| GridForecast.ForecastInNumbers | internal/bayes/grid.go:12-46 | A belief of this policy that is a law to 1e-9 forecasts 0.98 of the average of the twentieths .01, .05 to .95, .99 under its weights and 0.02 of one half; anything else one half |
| GridForecast.PriorInNumbers | internal/bayes/grid.go:18-38 | The law before an outcome, state by state: 0.98 of the stored weight and 0.02 of a twenty-first, or a twenty-first alone at a reset and for absent, foreign or malformed beliefs |
| GridForecast.ObservedOdds | internal/bayes/grid.go:50-71 | An update multiplies the odds of any state against any other, relative to the law before it, by the ratio of the probabilities the two gave to the outcome, to the power of the weight below one |
| TauWorst.WorstLaw | internal/agency/tau.go:34-52 | For every valid request and every candidate, if any law is within the radius, there is one inside it under which a turn paid benefit inside the counted window, minus falseCost elsewhere and minus turnCost always is worth at most the promised formula plus the mass tolerance's share |
| TauWorst.EmptyBall | internal/agency/tau.go:48-49 | No law at all is within the radius when the radius is less than half the mass the forecast states beyond or below one |
| TauWorst.PlanIsNotPessimistic | internal/agency/tau.go:34-57 | Whatever is planned, a candidate that can be dispatched and meets the probability floor either does no better than the plan or has a law in the ball under which it is worth no more than margin plus 1e-12 and the tolerance |
| TauWorst.OfferInNumbers | internal/agency/tau.go:34-52 | What a candidate is reported to be worth, with its dispatch, window mass, lower probability and utility written out |
| TauWorst.ScheduledAsReported | internal/agency/tau.go:34-57 | A scheduled turn is at a candidate, lasts the slack, can be dispatched at its minimum delay, validity and quiet hours, meets floor and margin, and is reported as it is |
| TauWorst.EarliestOfEquals | internal/agency/tau.go:51-55 | Of candidates that promise alike the earliest is planned |
| TauWorst.DefaultCandidates | internal/agency/tau.go:22-32 | Without supplied candidates there is one for each target atom: its delay less lead and slack |
| TauRequest.ComplaintIs | internal/agency/tau.go:60-115 | Which complaint a request gets, every rule of every group written out in numbers, and that it is valid exactly when there is none |
| TauEvidence.FittedIff | internal/agency/tau.go:145-200 | A forecast is fitted exactly from one to fifteen closed episodes in turn, no event used twice, and up to 32 edges rising to a horizon of at most a week |
| TauEvidence.ForecastInCounts | internal/agency/tau.go:141-207 | Each bin's probability times episodes plus bins plus one is one plus the number of episodes that ended later than the edge before and no later than its own; likewise for no event |
| AdapterRules.QuietIs | internal/agency/tau.go:124-141 | An instant is quiet when some day's quiet time began and its span, a whole day for equal hours, is not over |
| AdapterRules.AdapterQuietIs | plugin/src/agency.ts:317-321 | The same for the adapter, to which equal hours are never quiet |
| AdapterRules.DeliversIff | plugin/src/agency.ts:235-269 | The adapter delivers at an instant if and only if the configuration grants the proposal, the instant will do, and no earlier one would |
| AdapterRules.RefusesIff | plugin/src/agency.ts:235-269 | It refuses if and only if the proposal is not granted or no instant will do |
| AdapterRules.FirstRefusals | plugin/src/agency.ts:240-247 | Which reason it gives for what the configuration forbids, in order |
| AdapterRules.LaterRefusals | plugin/src/agency.ts:248-268 | Which reason it gives otherwise, in order, and that it allows the proposal when none applies |
| FuzzQueue.AdmittedIff | internal/service/background_fuzz.go:216-236 | A call is admitted if and only if its key has no entry, or one that is not the zero time and that the reading has reached |
| FuzzQueue.AdmissionIff | internal/service/background_fuzz.go:216-319 | In every reachable state a call is admitted if and only if its key has no live job and it reads at least completion plus cooldown of the key's last completion, where no call since has |
| FuzzQueue.EntryIs | internal/service/background_fuzz.go:216-319 | Over every interleaving an entry is that of the last completion, since which nobody read the end of its cooldown, or the one there was at the start |
| FuzzOrder.FirstInFirstOut | internal/service/background_fuzz.go:216-319 | Over every interleaving the jobs that found room are, in that order, those whose audit ended, the one the worker has, and those that wait: none lost, doubled or overtaken |
| FuzzOrder.CountersAreEndings | internal/service/background_fuzz.go:295-319 | Over every interleaving completed, stale and failed grow by the audits that ran, that met a changed snapshot, and that timed out, were canceled or broke |
| FuzzOrder.LastReport | internal/service/background_fuzz.go:273-319 | Over every interleaving the last result reports the last audit that ended: its job, time, verdict, error text, trials, properties and conditional invariants |
| Resets.StreakMeans | internal/bayes/changepoint.go:130-178 | Without cumulative sums both means are the exponential averages, oldest outcome weighed least, each with its own rate |
| Resets.CusumMean | internal/bayes/changepoint.go:130-178 | With them the slow mean is the exact mean of the warm-up and the exponential average from there |
| Resets.StreakAlarm | internal/bayes/changepoint.go:130-178 | Without cumulative sums the detector fires if and only if the last driftPersistence outcomes all left the fast average at least the threshold from the slow one, all on one side |
| Resets.AlarmIs | internal/bayes/changepoint.go:130-178 | Both modes: the CUSUM form is a stretch ending now whose shifted residuals reach the threshold |
| Resets.UpdateInNumbers | internal/bayes/changepoint.go:42-79 | The change probability is (h/2)/(h/2+(1-h) times the mean predictive), compared in product form, and the recent probability the sum of the law up to the window |
| Resets.ResetIff | internal/bayes/changepoint.go:88-119 | Within a regime a reset is committed if and only if the outcome is authorised, no cooldown runs, and the change probability reaches its threshold, or the recent mass does with more than twice the window of run lengths, or the drift detector fires |
| Resets.AfterOutcome | internal/bayes/changepoint.go:88-119 | With a reset the posterior holds the prior and this outcome alone, otherwise what it held and this outcome, discount and cooldown included |
| Resets.HigherThresholdResetsLess | internal/bayes/changepoint.go:101-104 | At any state, raising the change threshold never adds a reset |
| Resets.CooldownRuns | internal/bayes/changepoint.go:130-140 | Without a further reset the cooldown is down by the outcomes there were, to nought and no further |
| Resets.GroundsDecideAgain | internal/bayes/changepoint.go:88-119 | Once cooldownSamples outcomes have followed a reset, authority and the three grounds alone decide on the next one, over every run |
| TauWorst.UtilityInNumbers | internal/agency/tau.go:33-52 | The utility of the robustness theorem is benefit times the chance that the dispatch proves useful, less false cost times the chance that it does not, less turn cost |
| TauWorst.UsefulIs | internal/agency/tau.go:42-47 | A dispatch proves useful when the target lands from lead to lead plus window after it |
| PacketRules.ConflictIsSameEvidence | internal/epistemic/evidence.go:56-64 | Two candidates conflict exactly when they are not in different certified buckets and share a declared group, a group, or a lineage worded alike without either being a distinct occurrence |
| PacketRules.SimilarityIsShare | internal/epistemic/evidence.go:133-144 | Similarity is the share that the common words have of all words |
| PacketRules.PackedExactly | internal/packing/packing.go:38-87 | A candidate is packed if and only if at its turn there is room by count and by tokens and fewer than the occupancy limit of those packed are the same evidence |
| PacketRules.SuppressedExactly | internal/packing/packing.go:60-87 | Counted as suppressed are exactly those kept out by the occupancy limit alone |
| PacketRules.LimitIsLeast | internal/packing/packing.go:38-97 | The packet's size is the least of the bounds that apply, with the three grounds for expansion written out |
| PacketRules.ReorderedPrefers | internal/packing/packing.go:99-131 | At each reordered place score less penalty times worst overlap is the greatest of all that follow, ties going to the earlier candidate |
| PacketRules.OverlapIsWorst | internal/packing/packing.go:112-126 | The overlap is the largest share of common words with any chosen candidate not certified apart |
| RankReads.ValidIs | internal/rankdelta/store.go:37-50 | A record may be used exactly when it is complete and in range, written for this very snapshot, not from the future, and unexpired |
| RankReads.ReadReturns | internal/rankdelta/store.go:114-163 | A read by tenants whose names do not clash returns exactly the tenant's own requested rows that are so, each as it stands in the table |
| RankReads.WrittenIsRead | internal/rankdelta/store.go:114-230 | A new record that a committed batch writes is what its tenant reads next, field for field, while it is in force and of the snapshot, and nothing otherwise |
| RankReads.RefreshWritesNothing | internal/rankdelta/store.go:176-230 | A record that differs from the cached one by its time alone is accepted and writes nothing; the cached one stays |
| RankReads.MatchedIs | internal/rankdelta/store.go:262-265 | Already written is what the cache holds, but for its time |
| RankReads.RefusedIff | internal/rankdelta/store.go:165-175 | A batch with an incomplete, out-of-range or undated record is refused and writes nothing; any other goes through when the database does |
| GraphTrails.ListedIff | internal/graph/graph.go:70-140 | The closure lists a node exactly when a trail of at most the radius, along edges of either graph in either direction, links it to a place where the graphs differ; edges with such an end; events and keys of such nodes |
| GraphTrails.AffectedIff | internal/graph/graph.go:108-123 | Affected is what such a trail reaches, or such a place itself |
| GraphTrails.WalksTurnRound | internal/graph/graph.go:98-107 | Whoever can be reached can reach back in as many steps |
| GraphTrails.MetIff | internal/graph/graph.go:142-161 | An obligation is met exactly when the graph has its source and a trail from it to the target |
| GraphTrails.BurdenCounts | internal/graph/graph.go:142-161 | The burden counts an obligation's weight exactly when it is not met |
| GraphTrails.NodeMapIsLast | internal/graph/graph.go:238-244 | Of nodes with one identity the last in the list stands |
| TranslationRules.CarriesIsRewriting | internal/translation/evaluate.go:196-222 | A pair carries a declared change exactly when the first event says the old word in the mapped field and the second is the first with that field rewritten, in the six fields |
| TranslationRules.LocalIsRewriting | internal/translation/evaluate.go:211-222 | A transition is local exactly when the second event is the first with one word of the field rewritten, and differs if it should |
| TranslationRules.AuditedIff | internal/translation/evaluate.go:118-194 | Which requests are audited, every rule written out |
| TranslationRules.TranslationIs | internal/translation/evaluate.go:97-105 | A translation: rewritten and changed at every stage, the two effects close over every set of stages, and within the threshold at the last |
| TranslationRules.InvariantIs | internal/translation/evaluate.go:101-103 | An invariant: rewritten throughout, unchanged by the last stage, and neither forecast moved over any set of stages; never also a translation |
| TranslationRules.SparedIff | internal/translation/evaluate.go:69-71 | The predictor is spared exactly when no answers whatever could make the request more than a divergence |
| TranslationRules.AnswerCounts | internal/translation/evaluate.go:243-262 | An answer counts when every stage has a probability and all together one to 1e-9 |
| AgencyRules.QueuedIff | internal/store/memorystore/store.go:75-108 | Exactly when a proposal is queued: new, forecast standing, no digest at odds, room left by every rival record, evidence available, parent linked, chain and tenant within bounds |
| AgencyRules.QueuedIs | internal/store/memorystore/store.go:109-115 | What queueing leaves: the proposal as it came, pending, and the runtime and agency counters one further |
| AgencyRules.AnswerIs | internal/store/memorystore/store.go:187-253 | Exactly when a resolution is a repetition, exceeds the handles, lapses, loses its lease or is overtaken |
| AgencyRules.ConflictIs | internal/store/memorystore/store.go:207-246 | Exactly when it conflicts: doubt in the scope of an approval, or a closed record that is neither told the same again nor, being uncertain, acknowledged in full |
| AgencyRules.AnswerLeaves | internal/store/memorystore/store.go:187-253 | What each answer leaves of the record; every refusal but a lapse leaves the store as it was |
| AgencyRules.ClaimLeaves | internal/store/memorystore/store.go:127-185 | What a claim leaves of each record: closed for doubt, staleness or age, the first that holds, handed to the consumer until the lease ends, or as it was |
| AgencyRules.DeletionLeaves | internal/store/memorystore/store.go:930-955 | What a deletion of evidence leaves of each record |
| AgencyRules.DoubtEnds | internal/store/memorystore/store.go:203-213 | In every run an uncertain execution stops being one only when somebody rejects it with exactly the handles reported for it, each once |
| AgencyRules.VerdictStands | internal/store/memorystore/store.go:214-219 | In every run a record once approved, rejected or expired stays so, field for field, until somebody reports its execution uncertain |
| AgencyRules.HandleStays | internal/store/tau.go:12-36 | In every run the handle of a report that was taken is among its record's handles ever after |
| Opportunities.ApprovesIff | internal/store/memorystore/store.go:219-252 | Exactly when a resolution approves: decided so by the consumer whose lease runs, on a proposal neither expired nor overtaken, whose scope has nothing unresolved |
| Opportunities.ApprovalIsLeased | internal/store/memorystore/store.go:169-252 | In every run an approved proposal was handed to the very consumer that approves it, to nobody since, and the approval reads a time before that lease ends |
| Opportunities.LeaseIsHandedOut | internal/store/memorystore/store.go:169-176 | In every run a lease is that of the last claim that handed the proposal out |
| Opportunities.WinnersPress | internal/store/memorystore/store.go:158-168 | Whoever is handed out has a higher priority than whoever eligible is not, or as high a one and is due earlier, or the smaller identity |
| Snapshots.TauCompatibleIs | internal/store/tau.go:74-80 | A forecast stands exactly when nothing but the runtime and agency counters has moved, and those equally far |
| Snapshots.JournalCompatibleIs | internal/store/store.go:36-54 | A captured snapshot stands exactly when nothing but the runtime counter and the evidence epoch has moved and every version since is on record as evidence of later |
| Snapshots.StepAdvances | internal/store/memorystore/store.go:719-856 | Which counters each mutation moves, by how much, and which versions go on record |
| Prelude.LessIsByFirstDifference | internal/graph/graph.go:252-259 | Strings are ordered by their first difference, a prefix before what continues it |

## Left out

- IEEE rounding, NaN and infinity: arithmetic is over `real`, so the finite-value guards hold by type.
- ForecastMix.Observe: fractional powers enter as a function parameter of which only positivity on positive bases and power one are used; the tracking bounds are for full weight.
- ForecastMix.UpdateForecastWeights: the two `Enabled` flags and the four version numbers are compared, the journal they come from is not part of this model.
- Grid.UpdateGrid: the policy digest is an opaque identity; the log-odds filter of internal/bayes/working.go rests on `exp` and is left out.
- Tau.PlanTau: decision reasons and error texts.
- AgencyAdapter.EvaluateProposal: millisecond dates are embedded in the nanosecond line; signature and shape checks of the payload come before it, and so a turn's latest dispatch is always a date.
- FuzzQueue.BackgroundFuzzQueue.Complete: timeouts and the audit itself; how a job ends is an input of the step. The ticker and the idle test only decide when the worker receives, so the worker may receive at any time.
- RunLength.UpdateRunLength: where the alpha and beta of a stored class cancel, the division leaves a total that is not a positive finite number, and the model goes straight to the fallback, which is what the source then returns; no reachable state is one.
- Drift.ApplyOutcomeAuthorized: EvidenceTrust and the working belief, which Grid covers for the grid policy.
- Graph candidate scores and validation (`CandidateCompatibility`, `ValidateCandidate`): one pass each, they would only add easy members.
- RankDelta.SQLiteStore.GetBatch: what the database answers is an input, and overlapping calls are left out (a row read before another call's commit and cached after it can reinstall an older row).
- RankDelta.SQLiteStore.PutBatch: whether the transaction goes through is an input; versions fit the integer column, and instants are compared without time zone; nanosecond conversion wraps as 64-bit arithmetic does.
- Packing.Select: the entropy function is a parameter, event texts are already tokenised and digested, events with equal ID are one event, and a negative limit, at which the source panics, is excluded by the precondition; token counts do not overflow.
- Snapshots.TauCompatibleIffOnlyAgency: counters do not reach 2^64 in a run; the mutation methods of the stores appear only through the versions they advance.
- Snapshots.JournalSnapshotCompatible: the map of ingestions has fewer than 2^64 entries.
- Translation.ValidateChain: an event's own validation is a flag of the event; white space is the ASCII kind.
- Fuzz perturbation (`apply`, `validateRequest`) and summaries (`Summarize`): field copying, validators and Wilson bounds on `Erfinv`.
- Opportunities.AgencyStore.PutAgencyProposal: one non-empty tenant; signatures and replies are left out, the set of available events is an input, and cooldowns, which planner validation bounds, do not overflow a duration.
- Opportunities.RunIsExclusive: the persistent store (internal/store/libravdbstore/store.go) has the same checks over its own records and is left out, as are versions near 2^64.
- Opportunities.CooldownUnlessCancelled: requires that no approval reads an earlier time than a queueing before it, which the store does not ensure; CooldownHoldsIff says the cooldown needs it, RunIsExclusiveIff and ApartUnlessCancelled what holds without it. Decisions are the three that the service accepts.
- HTTP, gRPC, storage engines, signatures, embeddings, experiments: plumbing around these kernels.

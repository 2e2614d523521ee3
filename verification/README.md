# Proof Assistant: verified model of its coordination core

Proof Assistant turns a LaTeX manuscript into machine-checked Lean proofs. Many local processes
share a few resources: slots for AI, Lean and build work, a byte-limited cache, prepared dependency
depots, and a store of claims with their dependency graph. This project models the protocols and
graph algorithms behind that sharing and proves what each of them is for, over every input, every
run and every interleaving of the modelled steps.

Code that works step by step is modelled step by step: methods with loops, and classes whose methods
change fields. Each such method is proved equal to a specification function or relation; its contract
and the lemmas beside it say, without that specification, what the result or the new state is. Protocols that several processes step
concurrently are state machines, and their theorems hold for every sequence of enabled steps.

| file | component |
|---|---|
| `Admission.dfy`, `AdmissionLoop.dfy`, `AiController.dfy`, `AiRaces.dfy`, `Resizing.dfy`, `ResizeRaces.dfy`, `YellowBuilds.dfy` | ticketed waiters and expiring leases; the adaptive AI, Lean and build controllers |
| `ClaimGraph.dfy`, `ProofRounds.dfy`, `Certification.dfy`, `Grounding.dfy`, `GroundingOrders.dfy`, `CertifiedRounds.dfy` | satisfied prerequisites, the ready frontier, the proof-round loop, certification to a fixpoint, what it grounds, and rounds with their certification |
| `FailurePaths.dfy`, `FailureOutline.dfy`, `Components.dfy`, `Scheduler.dfy` | shortest failure paths, the shared outline, dependency cycles and the condensed graph, unlock scores and task order |
| `CacheGc.dfy`, `CacheProtocol.dfy`, `CacheReservations.dfy`, `CacheRecovery.dfy`, `CacheOvercommits.dfy`, `Depot.dfy` | eviction and its byte account, capacity reservations (steps, laws, recoverable crashes, failing runs), the dependency depot protocol |
| `Includes.dfy`, `StableIds.dfy`, `StableIdLaws.dfy` | the include closure and stable claim ids across edits |
| `Options.dfy`, `Ordering.dfy`, `Sorting.dfy`, `Reachability.dfy`, `Sums.dfy` | shared vocabulary: string and tuple order, stable sorting, graph reachability, sums over maps |

Time and bytes are integers, the throttle multiplier is a rational, and `sorted` on strings is
code-point order. Files, LaTeX parsing results, disk readings, clock readings and random jitter are
parameters.

## Where the code falls short of a promise

Each of these is a lemma with a concrete run or input, next to a lemma that says when the promise holds.

- Certification writes rejections back only after its row loop, so a claim can be certified on a
  prerequisite that is rejected in the same pass (`DemotionLeavesUngrounded`). The outcome is the least
  closed set if and only if that set holds no claim whose row ends rejected or refuted
  (`CertifiesTheLeastSet`); then the row order is irrelevant (`RowOrderIsIrrelevant`). In any case
  nothing outside the least set is certified (`CertifiesOnlyTheLeastSet`), and all that stands without
  the demoted claims is (`CertifiesBetweenCoreAndLeastSet`). CERTIFIED claims keep satisfied
  prerequisites if those stand without the demoted claims (`TargetsStandMeansGrounded`); when no claim
  that starts CERTIFIED waits for its prerequisites to be rejected, every row order keeps them if and
  only if they stand so (`GroundedInEveryOrderExactly`).
- The AI backoff is read in one transaction and the lease taken in another. A poll falls inside a
  backoff if and only if a window recorded after its gate has not ended (`LeaseInsideBackoffExactly`,
  `LateWindowIsMissed`).
- The AI limit is read and written outside the state transaction. Two successes that are due at once
  can push it past the ceiling (`TwoRaisersPassCeiling`, `TwoBecomeDue`). In a run that leaves no call
  unfinished the ceiling holds throughout if and only if no success reads a full limit after its check
  (`CeilingHoldsExactly`); the minimum always holds (`MinimumHolds`). Two throttles that read the same
  limit count as one (`ThrottleMayBeLost`); throttles that stay apart each count
  (`ApartThrottlesCount`, `ApartThrottlesHalve`).
- A collection measures entries, clears the reservations of dead sessions, and reads entries,
  reservations, dirty marks and candidates one after another, while sessions go on. An admission can
  over-commit if and only if more is committed than the collection counted
  (`AdmissionOvercommitsExactly`). Sessions may crash at any point, anybody may measure and forget
  entries meanwhile, and measurements may overtake one another; over-commitment needs one of four things
  (`NeverOverCommitted`), and each can happen: the collection starts to read while growth without a
  reservation lies on an unmarked entry (`UnmarkedGrowthOvercommits`, `GrowingACleanedEntryOvercommits`,
  `OverwrittenMarkOvercommits`, `OvertakenMeasurementOvercommits`, `ForgottenRowOvercommits`), growth
  slips between the first three readings (`ClosingBetweenReadingsOvercommits`,
  `MeasuringBetweenReadingsOvercommits`, `MeasuringBeforeMarksAreReadOvercommits`), an eviction deducts a
  size from the fourth reading that is larger than what the collection had counted for the entry
  (`EvictingAMeasuredOrphanOvercommits`), or an admission passes on a dirty index, by somebody's
  reservation, over growth without one (`CrashOfOneSharerOvercommits`,
  `CrashDuringReconciliationOvercommits`). Crashes that leave their growth on entries which the
  collection still comes to and nobody else holds never over-commit, as long as measurements do not
  overtake one another (`RecoverableCrashesNeverOvercommit`).
- The same late sizes unbalance the collection's account: its clamps at zero can bite
  (`LargerSizeUnbalances`). The account is exact if and only if no field loses more than was counted for
  it (`AccountIsExactlyKept`), and so whenever no evicted row was recorded larger among the candidates
  than in the usage (`LaterSizesKeepAccount`).
- Each process that resizes a pool waits out its own interval only, and reads the limit before it
  writes. In one interval every process may change the limit once (`OneIntervalAllows`), and one that
  read the limit before another's emergency undoes it (`EmergencyMayBeUndone`). A published minimum
  stands until the next sample if and only if no step under way has another target
  (`MinimumStandsExactly`); then only a process that has sampled since can leave it
  (`MinimumIsLeftBySamplers`). The bounds always hold, and a change that nobody overtook is one step
  (`ResizeRaces.RunKeepsInv`).
- A lease downgrade lets go of the exclusive lease before it takes the shared one, as `flock` may. Every
  ready claim sees a complete depot throughout a run if and only if no collector takes the depot away in
  such a gap (`EveryRunIsSafeExactly`, `RemovalInGapLosesDepot`).
- A label spelled like the next generated id collides with it (`LabelMayCollide`). The ids are distinct
  if and only if labels, reused ids and generated ids are disjoint (`IdsAreDistinctExactly`).

## Model

| member | source | states |
|---|---|---|
| `ClaimGraph.SatisfiedIsLeastFixpoint` | src/proof_assistant/incremental/graph.py:154-167 | on every graph, cycles included, the trail recursion accepts exactly the least set closed under "CERTIFIED" and "skipped, guided, and all prerequisites in the set" |
| `ClaimGraph.SatisfiedIsDeserved` | src/proof_assistant/incremental/graph.py:138-167 | on states and edges alone: a claim is satisfied when it is in every set that holds the CERTIFIED claims and each SKIPPED_UNPROVED claim with an approved `assistant_context` edge whose approved targets it holds |
| `ClaimGraph.SatisfiedUnderTrail` | src/proof_assistant/incremental/graph.py:95-108 | with any trail, the test decides the least set in which the trail's claims have no rule of their own |
| `ClaimGraph.LeastClosedUnfolds` | src/proof_assistant/incremental/graph.py:99-104 | a claim never needs itself: refusing a claim already on the trail loses nothing |
| `ClaimGraph.GuidanceCycleNeverSatisfies` | src/proof_assistant/incremental/graph.py:158-163 | uncertified claims that each lean on one of their own group are never satisfied |
| `ClaimGraph.UnsatisfiedDependencies` | src/proof_assistant/incremental/graph.py:132-175 | the result is the sorted list of approved direct prerequisites outside the least satisfied set: the ends of the claim's approved edges that are not satisfied |
| `ClaimGraph.ReadyFrontier` | src/proof_assistant/incremental/graph.py:81-129 | the result is the sorted list of selected ready-state claims whose selected prerequisites are all in the least satisfied set of the selection; the seven ready states are named |
| `ClaimGraph.ContextsAgree` | src/proof_assistant/incremental/graph.py:87-93 | inside a closed selection, dropping the edges that leave it satisfies the same claims as the whole graph |
| `ClaimGraph.FrontierAgreesWithUnsatisfied` | src/proof_assistant/incremental/graph.py:119-129 | on a closed selection the frontier is exactly the ready-state claims with no unsatisfied dependency |
| `ClaimGraph.BuildGraph` | src/proof_assistant/incremental/graph.py:28-34 | the nodes are the listed claims and both ends of every approved edge, listed or not; the successors of a claim are exactly its approved targets |
| `ClaimGraph.AffectedClaims` | src/proof_assistant/incremental/graph.py:49-62 | exactly the claims from which some changed claim is reachable, the changed ones included |
| `ClaimGraph.DependencyClosure` | src/proof_assistant/incremental/graph.py:65-78 | exactly what known targets reach; the result is closed under approved edges |
| `ClaimGraph.BlockedDescendants` | src/proof_assistant/incremental/graph.py:178-189 | exactly the selected claims that reach a blocker other than themselves |
| `Reachability.Descendants` | src/proof_assistant/incremental/graph.py:61-61 | what the graph library's descendants query returns: everything reachable except the start |
| `ProofRounds.FrontierProgress` | src/proof_assistant/incremental/graph.py:110-129 | on an acyclic schedulable selection the frontier is not empty while a ready-state claim remains |
| `ProofRounds.UnsatisfiedMeansFrontier` | src/proof_assistant/incremental/graph.py:119-129 | on an acyclic schedulable selection, anything unsatisfied leaves a nonempty frontier |
| `ProofRounds.ParkBlocked` | src/proof_assistant/incremental/orchestration.py:1154-1171 | exactly the selected, uncertified claims above an open clarification become BLOCKED_DEPENDENCY; nothing else changes |
| `ProofRounds.RunRound` | src/proof_assistant/incremental/orchestration.py:1464-1473 | every claim takes the reported state, scheduled or not; a scheduled one ends UNRESOLVED when nothing, or PROVING, was reported; any other keeps its state |
| `ProofRounds.RoundAdvances` | src/proof_assistant/incremental/orchestration.py:1145-1206 | a round that certifies part of its frontier keeps the selection schedulable and certifies strictly more |
| `ProofRounds.ScheduleRound` | src/proof_assistant/incremental/orchestration.py:1145-1206 | one trip: an unselected claim changes only by a report, an idle exit means an empty frontier, and for a provable run that everything selected is satisfied |
| `CertifiedRounds.RoundIsReported` | src/proof_assistant/incremental/orchestration.py:1449-1473 | a round with its certification pass is a round of the loop in which the certifier reports what it changed |
| `CertifiedRounds.DeliveredRoundIsProductive` | src/proof_assistant/incremental/orchestration.py:1449-1473 | what the loop's progress asks of a round follows from acceptable rows for the frontier and no demotion in the selection |
| `CertifiedRounds.DeliveredRoundCertifiesFrontier` | src/proof_assistant/incremental/certification.py:44-158 | one pass certifies the whole frontier whose rows are acceptable, whatever is demoted outside the selection |
| `CertifiedRounds.DeliveredRoundsSatisfyAll` | src/proof_assistant/incremental/orchestration.py:1145-1473 | such rounds satisfy a closed acyclic selection after at most as many rounds as it has uncertified claims |
| `ProofRounds.RunRounds` | src/proof_assistant/incremental/orchestration.py:1139-1206 | the loop runs at most `objects + 2` rounds; a provable run ends by an empty frontier after at most one round per selected claim plus one, with everything satisfied, so the bound never cuts it short |
| `Certification.CertifiesTheLeastSet` | src/proof_assistant/incremental/certification.py:44-158 | repeating the pass certifies exactly the least set closed under "approved row, valid declaration, prerequisites satisfied", with the states, reconciliations and counterexamples that go with it, if and only if that set holds no claim whose row ends rejected or refuted |
| `Certification.StabilisedIsSettled` | src/proof_assistant/incremental/orchestration.py:1097-1118 | under that condition the same outcome is reached from any point between two passes |
| `Certification.RowOrderIsIrrelevant` | src/proof_assistant/incremental/certification.py:44-150 | under that condition any order of the same rows gives the same states and the same result lists |
| `Certification.SatisfiedIsBounded` | src/proof_assistant/incremental/certification.py:69-83 | at every moment of a pass nothing is satisfied that is not in the final least set |
| `Certification.VerdictIsFinal` | src/proof_assistant/incremental/certification.py:53-94 | whatever a pass decides about a row, other than leaving it pending, is what the row comes to in the end; no condition on what is demoted |
| `Grounding.CertifiesBetweenCoreAndLeastSet` | src/proof_assistant/incremental/orchestration.py:1097-1118 | whatever is demoted: what ends satisfied lies in the least set and holds the least set that is left when demoted claims are taken out of both rules |
| `Grounding.StandingIsCertified` | src/proof_assistant/incremental/certification.py:69-150 | a pass certifies every acceptable claim whose prerequisites stand without the demoted claims, in any row order |
| `Grounding.TargetsStandMeansGrounded` | src/proof_assistant/incremental/orchestration.py:1097-1118 | "every CERTIFIED claim's direct prerequisites are satisfied" holds at the end if the prerequisites of all that may end CERTIFIED stand without the demoted claims |
| `GroundingOrders.GroundedInEveryOrderExactly` | src/proof_assistant/incremental/certification.py:44-158 | the other half, over all row orders: every order of the rows ends grounded if and only if the prerequisites of all that may end CERTIFIED stand without the demoted claims, provided that claims which start CERTIFIED and fall do so whether or not they are ready |
| `GroundingOrders.FirstPassDecides` | src/proof_assistant/incremental/certification.py:44-158 | in the order that certifies all it can first, one pass decides every claim: who ends certified is, and who falls has fallen |
| `Grounding.CertificationKeepsGrounded` | src/proof_assistant/incremental/orchestration.py:1097-1118 | a corollary: it is kept when nothing of the least set is demoted |
| `Certification.DemotionLeavesUngrounded` | src/proof_assistant/incremental/certification.py:151-158 | a grounded start that ends with a CERTIFIED claim on a rejected prerequisite |
| `Certification.CertifiesOnlyTheLeastSet` | src/proof_assistant/incremental/certification.py:69-83 | without any condition: no claim outside the least set is ever certified or counts as satisfied, whatever is rejected on the way |
| `Certification.CertificationStore.JudgeRow` | src/proof_assistant/incremental/certification.py:45-150 | a row is certified exactly when it is current and approved, names an existing claim and declaration that is no axiom, has a value and rests on no `sorryAx` or new project axiom, and its prerequisites are satisfied; refuted and rejected likewise; the certificate carries the declaration's type hash and name |
| `Certification.CertificationStore.SetClaimState` | src/proof_assistant/incremental/store.py:1199-1222 | only an existing claim row is updated |
| `Certification.CertificationStore.RejectAll` | src/proof_assistant/incremental/certification.py:151-158 | after the row loop every rejected claim is FAILED_FORMALIZATION and nothing else changed |
| `Certification.CertificationStore.CertifyCurrentCorrespondence` | src/proof_assistant/incremental/certification.py:40-170 | one pass over the rows in place: each result list holds exactly the claims of the rows that must be there, judged on the states they meet, and every rejected claim ends FAILED_FORMALIZATION |
| `Certification.CertificationStore.CertifyUntilStable` | src/proof_assistant/incremental/orchestration.py:1100-1118 | the loop in place gives the specified fixpoint, and terminates; whatever it certifies has a current approved row on a finished declaration without forbidden axioms, and every defect that shows at once ends FAILED_FORMALIZATION |
| `Certification.VerdictMeans` | src/proof_assistant/incremental/certification.py:53-94 | each of the five verdicts, in terms of the row, its declaration and its prerequisites |
| `Certification.PassIsSupported` | src/proof_assistant/incremental/certification.py:44-158 | after a pass every claim that has become CERTIFIED has such a row, and every current approved row with a missing claim, declaration or value, an axiom, or a counterexample on forbidden axioms leaves its claim FAILED_FORMALIZATION |
| `Admission.RunKeepsInv` | src/proof_assistant/concurrency/admission.py:265-428 | over every run: one lease and one waiter per request, never both, tickets distinct |
| `Admission.PollingGrantsTheFront` | src/proof_assistant/concurrency/admission.py:284-371 | polling waiters in any order and any number of times grants exactly those that were in front at the start |
| `Admission.FrontIsPrefixOfLine` | src/proof_assistant/concurrency/admission.py:321-345 | the front is the first `limit - active` waiters in (priority, ticket) order |
| `Admission.EarlierIsPosition` | src/proof_assistant/concurrency/admission.py:327-342 | the counting query is the position in line |
| `Admission.LineExists` | src/proof_assistant/concurrency/admission.py:327-342 | in every reachable state the waiters of a resource form one line without ties |
| `Admission.GrantShrinksFront` | src/proof_assistant/concurrency/admission.py:343-371 | granting one admissible waiter leaves every other admissible waiter admissible, and admits nobody new |
| `Admission.GrantedByPosition` | src/proof_assistant/concurrency/admission.py:265-377 | whatever has expired, a poll creates a lease exactly when the request's position in line is below the free slots |
| `Admission.LeasesStayWithinLimits` | src/proof_assistant/concurrency/admission.py:232-253 | over every run, leases never outnumber the largest limit ever published |
| `Admission.StepAddsWithinLimit` | src/proof_assistant/concurrency/admission.py:321-371 | the lease count grows only by a poll, by one, and only up to the limit then in force |
| `Admission.LeaseEndsByReleaseOrExpiry` | src/proof_assistant/concurrency/admission.py:205-253 | a lease ends only by its own release or its own expiry; lowering a limit revokes nothing |
| `Admission.OnlyOwnHeartbeatChanges` | src/proof_assistant/concurrency/admission.py:379-410 | only a heartbeat with its own id changes a surviving lease |
| `Admission.StaleLeaseIsInert` | src/proof_assistant/concurrency/admission.py:379-420 | after any further run, a heartbeat or release with the id of a lease that is gone leaves its successor as it is |
| `Admission.AttendedLeaseIsHeld` | src/proof_assistant/concurrency/admission.py:379-410 | over every run: a lease whose holder beats before each span has passed, and does not release it, is held in every state, whatever others do |
| `Admission.StepKeepsPlace` | src/proof_assistant/concurrency/admission.py:284-305 | a live waiter keeps its ticket and newcomers queue behind it |
| `Admission.SyncPublishesOnce` | src/proof_assistant/concurrency/admission.py:540-595 | a configuration already published is not published again, whatever was adapted since |
| `Admission.AdmissionStore.PruneExpired` | src/proof_assistant/concurrency/admission.py:205-208 | exactly the expired rows go |
| `Admission.AdmissionStore.PublishIfAbsent` | src/proof_assistant/concurrency/admission.py:210-230 | a limit is inserted only where there is none; a negative one is refused |
| `Admission.AdmissionStore.Publish` | src/proof_assistant/concurrency/admission.py:232-253 | the limit is replaced and no lease row changes |
| `Admission.AdmissionStore.Enrol` | src/proof_assistant/concurrency/admission.py:284-305 | a new waiter gets the next ticket, an old one keeps its ticket and arrival; owner, priority and span are the request's, and the row lasts four spans, a minute at least |
| `Admission.AdmissionStore.Admits` | src/proof_assistant/concurrency/admission.py:321-345 | a waiter is admissible exactly when fewer waiters of its resource are ahead by priority and ticket than slots are free |
| `Admission.AdmissionStore.Admit` | src/proof_assistant/concurrency/admission.py:343-377 | a grant replaces the waiter by a lease under a new id, a refusal changes nothing |
| `Admission.AdmissionStore.Poll` | src/proof_assistant/concurrency/admission.py:265-377 | the whole transaction in place: a live lease under the request's key is given back as it is; a resource without a limit changes nothing; else a lease or a place in the queue |
| `Admission.AdmissionStore.Beat` | src/proof_assistant/concurrency/admission.py:379-410 | a live heartbeat moves the expiry to its own time plus the lease's span, which a nonzero `ttl` replaces; an expired or released lease and a negative span are refused; nothing else changes |
| `Admission.AdmissionStore.Drop` | src/proof_assistant/concurrency/admission.py:412-420 | exactly the named lease goes, and the answer says whether it existed |
| `Admission.AdmissionStore.Withdraw` | src/proof_assistant/concurrency/admission.py:422-428 | exactly the named waiter goes, and the answer says whether it existed |
| `Admission.AdmissionStore.Sync` | src/proof_assistant/concurrency/admission.py:540-595 | a changed configuration publishes all its limits and its marker together, an unchanged or invalid one nothing |
| `AdmissionLoop.Perform` | src/proof_assistant/concurrency/admission.py:205-462 | each store method, in place, is one step of the state machine the run theorems are about; a release drops its lease, a cancel its waiter, a live heartbeat moves its expiry, a poll leaves a waiter or a lease |
| `AdmissionLoop.PollAnswers` | src/proof_assistant/concurrency/admission.py:265-377 | a granted poll holds its lease, a refused one is queued without a lease, an unconfigured one changes nothing |
| `AdmissionLoop.AdmissionController.Acquire` | src/proof_assistant/concurrency/admission.py:627-647 | the polling loop, whatever others do between polls and before the cancel: one poll per round until one is not told to wait; a lease that is held, or after the last poll a request that has left the queue and holds nothing unless somebody else polled under its key |
| `AiController.LimitStaysInBounds` | src/proof_assistant/concurrency/ai.py:208-308 | with calls taken one at a time, the limit stays within [minimum, ceiling] over every run |
| `AiController.IncreasesArePaidFor` | src/proof_assistant/concurrency/ai.py:219-247 | additive increases number at most the successes divided by the threshold |
| `AiController.ThrottlesHalve` | src/proof_assistant/concurrency/ai.py:275-280 | k throttles at one half give exactly max(minimum, limit div 2^k) |
| `AiController.ThrottleShrinks` | src/proof_assistant/concurrency/ai.py:276-279 | a throttled limit is between the minimum and the limit, at any multiplier below one |
| `AiController.BackoffEscalates` | src/proof_assistant/concurrency/ai.py:255-272 | throttles climb the backoff stages one by one up to the last, and the stored backoff covers every recorded delay |
| `AiController.TransientsStepDown` | src/proof_assistant/concurrency/ai.py:282-312 | every transient failure in a row but the first takes one slot, down to the minimum |
| `AiController.NoLeaseInsideBackoff` | src/proof_assistant/concurrency/ai.py:183-190 | a poll never falls inside a window recorded before its gate |
| `AiController.LeaseInsideBackoffExactly` | src/proof_assistant/concurrency/ai.py:183-190 | a poll falls inside a recorded window if and only if a window recorded after its gate has not ended |
| `AiController.LateWindowIsMissed` | src/proof_assistant/concurrency/ai.py:187-190 | a window recorded between gate and poll is not honoured |
| `AiController.AIAdmissionController.TryAcquireLease` | src/proof_assistant/concurrency/ai.py:187-190 | inside the backoff the store is not touched, otherwise the answer is the store's |
| `AiController.AIAdmissionController.OnSuccess` | src/proof_assistant/concurrency/ai.py:208-247 | the limit rises by one exactly when growth is due (queued work, enough successes, no backoff, cooldown over, below the ceiling); counters, stage and calm backoff follow |
| `AiController.AIAdmissionController.OnThrottle` | src/proof_assistant/concurrency/ai.py:249-280 | the limit is cut by the multiplier down to the minimum, the stage climbs, and the delay is the server's or the jittered stage of 30, 60, 120, 240, 300 seconds |
| `AiController.AIAdmissionController.OnTransientFailure` | src/proof_assistant/concurrency/ai.py:282-308 | from the second failure in a row on the limit falls by one down to the minimum; the stage climbs and the delay is the jittered stage |
| `AiRaces.MinimumHolds` | src/proof_assistant/concurrency/ai.py:275-308 | in every interleaving of state, read and write transactions the limit stays at or above the minimum |
| `AiRaces.CeilingHoldsExactly` | src/proof_assistant/concurrency/ai.py:214-247 | in every interleaving that leaves no call unfinished, the limit stays at or below the ceiling in all states if and only if no success reads a full limit after its check |
| `AiRaces.OneRaiserKeepsCeiling` | src/proof_assistant/concurrency/ai.py:244-247 | a corollary: in every interleaving in which at most one call is raising the limit stays at or below the ceiling |
| `AiRaces.TwoRaisersPassCeiling` | src/proof_assistant/concurrency/ai.py:245-246 | two due successes that both pass the check leave the limit above the ceiling |
| `AiRaces.TwoBecomeDue` | src/proof_assistant/concurrency/ai.py:214-244 | without a cooldown two successes do become due before either writes |
| `AiRaces.ThrottleMayBeLost` | src/proof_assistant/concurrency/ai.py:276-279 | two throttles that read the same limit leave what one would |
| `AiRaces.IsolatedThrottleCounts` | src/proof_assistant/concurrency/ai.py:276-279 | a throttle cuts the very limit that it replaces when nobody writes between its read and its write |
| `AiRaces.ApartThrottlesCount` | src/proof_assistant/concurrency/ai.py:249-280 | in a run whose throttles stay apart and where nothing else writes, every written throttle counts, at any multiplier |
| `AiRaces.ApartThrottlesHalve` | src/proof_assistant/concurrency/ai.py:249-280 | k such throttles at one half leave exactly max(minimum, limit div 2^k) |
| `Resizing.LimitStaysInBounds` | src/proof_assistant/concurrency/lean.py:177-236 | over every observation sequence the limit stays within the configured bounds |
| `Resizing.ResizeNeedsEvidence` | src/proof_assistant/concurrency/lean.py:172-236 | a resize outside an emergency moves by one, after `hysteresis` consecutive samples in its direction, an interval after every earlier resize |
| `Resizing.EvidenceResizes` | src/proof_assistant/concurrency/build.py:155-179 | the converse: enough samples after enough time do resize, unless the bound is reached |
| `Resizing.StreakIsCounted` | src/proof_assistant/concurrency/build.py:162-178 | a streak is on its counter, unless the limit sits at its bound |
| `Resizing.SamplesAreNeeded` | src/proof_assistant/concurrency/lean.py:186-236 | over every history of samples: outside emergencies the limit moves by one, in the direction that the last `hysteresis` samples ask for, an interval after every earlier move |
| `Resizing.SamplesSuffice` | src/proof_assistant/concurrency/build.py:155-179 | the converse: that many samples, after an interval, move the limit off anything but its bound |
| `Resizing.EmergencyMeansMinimum` | src/proof_assistant/concurrency/lean.py:209-215 | in adaptive mode an emergency sample leaves the minimum |
| `ResizeRaces.RunKeepsInv` | src/proof_assistant/concurrency/lean.py:172-234 | in every interleaving of several processes: the limit stays in its bounds, a change nobody overtook is one step, and outside emergencies each process leaves an interval between its changes |
| `ResizeRaces.OneIntervalAllows` | src/proof_assistant/concurrency/lean.py:172-184 | outside emergencies, the changes decided within one interval number at most the processes |
| `ResizeRaces.EmergencyMayBeUndone` | src/proof_assistant/concurrency/lean.py:177-184 | a run in which the minimum published in an emergency is overwritten by a growth computed before it |
| `ResizeRaces.MinimumStandsExactly` | src/proof_assistant/concurrency/lean.py:177-184 | a published minimum survives every order and every stopping point of the steps under way if and only if each of them ends at the minimum |
| `ResizeRaces.MinimumIsLeftBySamplers` | src/proof_assistant/concurrency/lean.py:172-184 | from there on, whatever is sampled, the change that first leaves the minimum is one of a process that has sampled since |
| `ResizeRaces.UndisturbedIsObserve` | src/proof_assistant/concurrency/lean.py:186-234 | with nobody in between, the steps of one call are the single controller's observation |
| `Resizing.PoolController.ResizeTo` | src/proof_assistant/concurrency/build.py:116-123 | the limit is clamped and published, the counters restart, the resize time moves only with the limit |
| `Resizing.PoolController.ObserveSample` | src/proof_assistant/concurrency/lean.py:186-236 | one sample in place: the limit rises by one only on green pressure with work waiting and a cool processor (a build: improvement and no slow disk), falls by one only on red pressure or heat without a gain (a build: a slow disk), and goes to the minimum on an emergency; pause flag and rejection are exact; other limits stay |
| `YellowBuilds.CheckIsExact` | src/proof_assistant/concurrency/build.py:104-105 | the check lets a full build through exactly when every build lease has expired |
| `YellowBuilds.LoneFullBuildIsAdmitted` | src/proof_assistant/concurrency/build.py:87-109 | with a slot to give, a full build that meets no other build and no other waiter passes the check and gets its lease |
| `YellowBuilds.YellowAdmitsOneFullBuild` | src/proof_assistant/concurrency/build.py:87-109 | under yellow pressure, whatever the limit and the interleaving, and if processes die between check and poll, at most one full build holds a lease |
| `FailurePaths.SearchFindsLeastPaths` | src/proof_assistant/incremental/failures.py:362-370 | the predecessor tree holds, for each claim reached, its shortest and among these lexicographically least path |
| `FailurePaths.TreePathIsLeast` | src/proof_assistant/incremental/failures.py:364-370 | every path from the target ends at a discovered claim whose tree path is no greater |
| `FailurePaths.TreePathsAscend` | src/proof_assistant/incremental/failures.py:366-370 | claims are discovered in increasing order of their paths |
| `FailurePaths.LeastPathIsUnique` | src/proof_assistant/incremental/failures.py:371-379 | there is one such path for a target and a blocker |
| `FailurePaths.SearchFrom` | src/proof_assistant/incremental/failures.py:362-370 | the queue loop expands everything reachable, each claim once, and terminates on cycles |
| `FailurePaths.ReadBack` | src/proof_assistant/incremental/failures.py:374-379 | the cursor loop returns the least path from target to blocker |
| `FailurePaths.Paths` | src/proof_assistant/incremental/failures.py:353-390 | every reachable (target, blocker) pair appears, by its least path, nothing else does, without repetition when targets are distinct; in order of the first listing of their targets, then by length and names of the path |
| `FailureOutline.VisitClaim` | src/proof_assistant/incremental/failures.py:418-468 | the explicit-stack loop returns what the depth-first recursion returns, and terminates |
| `FailureOutline.Turn` | src/proof_assistant/incremental/failures.py:434-467 | one turn of the loop keeps what the rest of the run will return |
| `FailureOutline.ResumePush` | src/proof_assistant/incremental/failures.py:451-453 | pushing a frame for an unexpanded child stands for its recursive visit |
| `FailureOutline.ResumeTakes` | src/proof_assistant/incremental/failures.py:435-450 | taking a finished or shared child into its parent is what the recursion does with it |
| `FailureOutline.ForestExpandsReachableOnce` | src/proof_assistant/incremental/failures.py:401-495 | over all roots each reachable claim is expanded exactly once and no other is; other occurrences are childless shared references; children follow sorted successor order |
| `FailureOutline.VisitAllFacts` | src/proof_assistant/incremental/failures.py:418-468 | the same for visits that start from any expanded set |
| `FailureOutline.BuildHeadings` | src/proof_assistant/incremental/failures.py:470-491 | one heading per run-wide incident, over one entry per known claim, all sharing the expanded set |
| `FailureOutline.BuildOutline` | src/proof_assistant/incremental/failures.py:393-495 | headings and targets are one sequence of visits; every entry tells its claim's incidents, whether it blocks, and its state, a technical failure as blocked when a run-wide or batch-wide incident hit a claim that is no blocker |
| `FailureOutline.ShapedIsDrawn` | src/proof_assistant/incremental/failures.py:409-416 | throughout a tree: state, blocker flag, incidents and sorted dependencies of every entry |
| `Components.CanonicalCycles` | src/proof_assistant/incremental/graph.py:37-46 | exactly the components of claims on a cycle, as sorted tuples, each once and in tuple order; none exactly when the graph is acyclic |
| `Components.OnCycle` | src/proof_assistant/incremental/graph.py:39-45 | the size and self-edge test recognises exactly the claims that reach themselves |
| `Components.SortedComponents` | src/proof_assistant/incremental/failures.py:504-507 | every mutual-reachability class once, ordered by sorted members |
| `Components.Describe` | src/proof_assistant/incremental/failures.py:514-531 | members, cycle flag, blocker flag and sorted incidents of one component |
| `Components.BuildComponents` | src/proof_assistant/incremental/failures.py:498-542 | every claim sits in its own component, and the component edges are exactly the claim edges that cross; components ascend by their members, edges by their ends, and incidents by number |
| `Components.CondensedReaches` | src/proof_assistant/incremental/failures.py:532-541 | component edges reach from one claim's component to another's exactly when the claims reach one another in the graph |
| `Components.CondensedIsAcyclic` | src/proof_assistant/incremental/failures.py:532-541 | the condensed graph has no cycle |
| `Scheduler.BuildReverse` | src/proof_assistant/concurrency/scheduler.py:104-107 | the reverse table holds exactly the dependents of each prerequisite |
| `Scheduler.CountUnlocked` | src/proof_assistant/concurrency/scheduler.py:110-122 | the count is the number of distinct wanted claims that transitively depend on the claim, itself excluded, cycles included |
| `Scheduler.UnlockScores` | src/proof_assistant/concurrency/scheduler.py:95-123 | for each listed claim, how many requested and blocked claims wait for it, directly or not |
| `Scheduler.PrerequisiteScoresHigher` | src/proof_assistant/concurrency/scheduler.py:110-122 | on acyclic dependencies a prerequisite scores at least its dependent, and strictly more when that one is wanted |
| `Scheduler.Prioritize` | src/proof_assistant/concurrency/scheduler.py:125-150 | a permutation of the tasks by class (diagnosis, proofs, maintenance, review, second attempts, reports), then by how many claims wait, ready order and claim id |
| `Scheduler.PrerequisitesRunFirst` | src/proof_assistant/concurrency/scheduler.py:141-149 | within one priority a prerequisite runs before a wanted dependent |
| `CacheGc.UsageOf` | src/proof_assistant/cache.py:1087-1104 | each field is the sum of its kinds, trash counting as temporary, and they add up to the managed bytes |
| `CacheGc.AccountIsExactlyKept` | src/proof_assistant/cache.py:1339-1359 | the evicted sizes come from a later reading than the usage: the account after the evictions is exact, no clamp at zero having bitten, if and only if no field loses more than was counted for it |
| `CacheGc.LaterSizesKeepAccount` | src/proof_assistant/cache.py:1339-1359 | it is exact and balanced when no evicted row was recorded larger among the candidates than in the usage reading |
| `CacheGc.UnchangedIndexIsNoneLarger` | src/proof_assistant/cache.py:1452-1482 | which holds whenever nobody writes the index between the two readings |
| `CacheGc.LargerSizeUnbalances` | src/proof_assistant/cache.py:1345-1358 | an account that a larger size takes out of balance: managed bytes 0 beside a depot of 4 |
| `CacheGc.DealWithOne` | src/proof_assistant/cache.py:1452-1482 | dealing with one candidate in an unsafe state keeps the loop's account, its result lists and "each eviction happened in an unsafe state" |
| `CacheGc.RefusalIsExact` | src/proof_assistant/cache.py:1419-1436 | the early refusal fires exactly when no set of evictions could meet both limits |
| `CacheGc.CacheIndex.UpsertEntry` | src/proof_assistant/cache_index.py:187-215 | the row for the path is replaced |
| `CacheGc.CacheIndex.MarkDirty` | src/proof_assistant/cache_index.py:246-273 | the known byte count of a dirty entry is kept, and is zero if there was none |
| `CacheGc.CacheIndex.MarkDeleting` | src/proof_assistant/cache_index.py:234-244 | only the state of an existing row changes |
| `CacheGc.CacheIndex.RemoveEntry` | src/proof_assistant/cache_index.py:217-222 | exactly that row goes |
| `CacheGc.CacheIndex.Candidates` | src/proof_assistant/cache.py:1172-1203 | every row once: trash, temporary trees, builds, depots, downloads, Lake caches; within a kind by least recent use and name |
| `CacheGc.CacheIndex.DealWith` | src/proof_assistant/cache.py:1458-1482 | a protected candidate changes nothing, one whose lease is held is noted, any other goes and its bytes and mark with it; a failed deletion leaves its row marked |
| `CacheGc.CacheIndex.EvictNext` | src/proof_assistant/cache.py:1452-1482 | one trip of the loop, with its deadline |
| `CacheGc.CacheIndex.EvictionLoop` | src/proof_assistant/cache.py:1452-1482 | of the candidates before the cut exactly the unprotected free ones go, each in an unsafe state, and exactly the unprotected active ones are listed as skipped; every protected or active entry keeps its row; the loop stops at the first safe state, at the end, or by an exactly described failure |
| `CacheGc.CacheIndex.CollectGarbage` | src/proof_assistant/cache.py:1384-1501 | with usage, dirty paths and candidates from three readings of the index: refusal exactly when hopeless; strict success keeps both limits, and nothing was evicted while they were kept; unsatisfied only after every candidate; whatever the outcome, protected and active entries keep their rows; removed sizes sum to before minus after when none was larger than counted |
| `CacheProtocol.BookBoundsDisk` | src/proof_assistant/cache.py:1411-1417 | recorded sizes plus reservations bound what is on disk plus what may still come, up to growth no reservation answers for |
| `CacheProtocol.NextKeepsInv` | src/proof_assistant/cache.py:1384-1501 | every step of sessions, the collector and the command line, failed deletions and forgotten rows included, keeps "sizes lag by at most what sessions spent, within their reservations", in the index and in the collection that has read it |
| `CacheReservations.NextKeepsCommitted` | src/proof_assistant/cache.py:1641-1691 | only an admission raises disk bytes plus unspent reservations |
| `CacheReservations.AdmissionBoundsCommitted` | src/proof_assistant/cache.py:1555-1602 | after any admission these exceed the limit at most by the growth that no reservation answered for and by what evictions deducted beyond what was counted |
| `CacheReservations.AdmissionOvercommitsExactly` | src/proof_assistant/cache.py:1411-1417 | some request that passes the guard over-commits if and only if more is committed than the collection counted, its evictions deducted with the sizes of the candidates |
| `CacheReservations.CountingAllNeverOvercommits` | src/proof_assistant/cache.py:1555-1602 | whatever else happens, a run never over-commits whose admissions overlook no growth without a reservation and deduct no more than was counted |
| `CacheReservations.CleanIndexCountsAll` | src/proof_assistant/cache.py:1409-1414 | the guard of the code: a collection that sees no dirty entry has counted all growth |
| `CacheReservations.NeverOverCommitted` | src/proof_assistant/cache.py:1555-1602 | with crashes, failed and overtaken measurements, reconciliation by the command line and failed deletions at any point: disk bytes plus unspent reservations stay within the limit from the first admission on, unless a collection starts to read while growth without a reservation lies on an unmarked entry, growth slips between its first three readings, an eviction deducts more than was counted for its entry, or an admission passes on a dirty index over growth without a reservation |
| `CacheReservations.BackedRunsNeverOvercommit` | src/proof_assistant/cache.py:1411-1417 | dirty marks do not matter while no reservation disappears before the growth it answers for is measured and no eviction deducts more than was counted |
| `CacheRecovery.RecoverableCrashesNeverOvercommit` | src/proof_assistant/cache.py:981-1032 | crashes never over-commit when each leaves its growth on marked or unknown entries that the collection still comes to and nobody else holds, sessions that leave have measured, no measurement is older than the growth of one that has gone, and nothing shrinks or goes while it is measured |
| `CacheRecovery.CrashFreeRunsNeverOvercommit` | src/proof_assistant/cache.py:1641-1691 | without crashes it is enough that sessions measure before they leave, not between the first two readings, and that no measurement is overtaken |
| `CacheRecovery.NextKeepsRows` | src/proof_assistant/cache.py:1172-1203 | why no eviction then deducts too much: every row that the candidates may show lies within what was counted and has been seen growing since |
| `CacheOvercommits.ClosingBetweenReadingsOvercommits` | src/proof_assistant/cache.py:1083-1084 | a run where a close between the readings of entries and reservations over-commits |
| `CacheOvercommits.GrownIsReached` | src/proof_assistant/cache.py:1635-1668 | the start of that run is reached from an empty cache |
| `CacheOvercommits.CrashOfOneSharerOvercommits` | src/proof_assistant/cache.py:1362-1371 | a run where a crash of one of two sharers over-commits |
| `CacheOvercommits.BusyIsSound` | src/proof_assistant/cache.py:1642-1663 | the start of that run and of the next three is sound and within the limit |
| `CacheOvercommits.MeasuringBetweenReadingsOvercommits` | src/proof_assistant/cache.py:1083-1084 | a run where a sharer measures a dead session's growth between the readings of entries and reservations over-commits |
| `CacheOvercommits.MeasuringBeforeMarksAreReadOvercommits` | src/proof_assistant/cache.py:1084-1409 | the same between the readings of reservations and dirty marks |
| `CacheOvercommits.CrashDuringReconciliationOvercommits` | src/proof_assistant/cache.py:1004-1012 | a run where a session dies after its entry was passed over as held, and before its reservation is cleared, over-commits although it shares nothing |
| `CacheOvercommits.UnmarkedGrowthOvercommits` | src/proof_assistant/cache.py:1635-1668 | a run where a lone session grows a known entry that is not marked, and dies, over-commits although nothing is dirty |
| `CacheOvercommits.GrowingACleanedEntryOvercommits` | src/proof_assistant/cache.py:1670-1686 | a run that gets there when the first of two sharers takes the mark along |
| `CacheOvercommits.PairedIsSound` | src/proof_assistant/cache.py:1642-1663 | the start of that run is sound and within the limit |
| `CacheOvercommits.OverwrittenMarkOvercommits` | src/proof_assistant/cache.py:1004-1028 | a run where the collector records a size after it has let go of the entry, and so takes the mark that a session has just put on it |
| `CacheOvercommits.WaitingIsSound` | src/proof_assistant/cache.py:1642-1663 | the start of that run is sound and within the limit |
| `CacheOvercommits.EvictingAMeasuredOrphanOvercommits` | src/proof_assistant/cache.py:1172-1203 | a run where a sharer measures a dead session's growth after the dirty marks are read: the eviction deducts 5 bytes of the 4 that were counted, and 13 are committed |
| `CacheOvercommits.JointIsSound` | src/proof_assistant/cache.py:1642-1663 | the start of that run is sound and within the limit |
| `CacheOvercommits.OvertakenMeasurementOvercommits` | src/proof_assistant/cache.py:1035-1064 | a run where an older measurement is recorded after a younger one, which takes the growth of a session that has left off the index |
| `CacheOvercommits.ForgottenRowOvercommits` | src/proof_assistant/cache.py:991-1028 | a run where the row of an entry that was made after the listing is forgotten |
| `Depot.BuildersAreAlone` | src/proof_assistant/cache.py:1971-2026 | over every interleaving and crash: at most one builder, no builder beside a holder, and the three-file test accepts exactly the complete depots |
| `Depot.EveryRunIsSafeExactly` | src/proof_assistant/cache.py:1971-2026 | over every interleaving and crash, with downgrades that let go first: every ready claim sees a complete depot in all states if and only if no collector takes the depot away in such a gap |
| `Depot.NextKeepsTrust` | src/proof_assistant/cache.py:1934-1949 | every other step keeps "a ready claim sees a complete depot that nobody is building" |
| `Depot.SeamlessRunsAreSafe` | src/proof_assistant/cache.py:144-147 | downgrades that let nobody in between keep every run safe |
| `Depot.NextKeepsInv` | src/proof_assistant/cache.py:1884-1968 | every step of every process keeps the lease discipline and the directory state that each position in the protocol relies on |
| `Depot.HeldDepotStays` | src/proof_assistant/cache.py:1453-1482 | while one process holds its shared lease, no claim, rollback or collection of others changes the depot |
| `Depot.LoneClaimRecovers` | src/proof_assistant/cache.py:1988-2023 | whatever directory crashes left, a claim that meets no other lease ends with a complete ready depot |
| `Depot.RemovalInGapLosesDepot` | src/proof_assistant/cache.py:144-147 | the failing run: a collector acquires the lease in the gap of a publication and removes the depot, which is then held as ready |
| `Depot.DependencyDepotClaim.constructor` | src/proof_assistant/cache.py:2009-2016 | a new claim is ready or the builder's, not promoted |
| `Depot.DependencyDepotClaim.Promote` | src/proof_assistant/cache.py:1884-1932 | the staged tree appears at once, or after a failed link everything is undone |
| `Depot.DependencyDepotClaim.Commit` | src/proof_assistant/cache.py:1934-1949 | the marker is written, then the claim becomes a shared ready one; a failed index refresh leaves it exclusive and not ready |
| `Depot.DependencyDepotClaim.Rollback` | src/proof_assistant/cache.py:1951-1963 | packages leave a promoted, uncommitted depot and the directory goes; anything else stays |
| `Depot.DependencyDepotClaim.Close` | src/proof_assistant/cache.py:1965-1968 | the lease is free; a ready depot stays, an unfinished one is gone |
| `Depot.ClaimDependencyDepot` | src/proof_assistant/cache.py:1971-2026 | the waiting loop ends with a complete depot held, or with the exclusive lease over an empty place, or with no lease; with nobody else there the first round decides by the directory |
| `Includes.ResolveLatexClosure` | src/proof_assistant/incremental/latex.py:470-498 | fails exactly when the main file is missing or a reachable file cannot be read or resolved; otherwise each reachable file once, main first, in depth-first preorder |
| `Includes.PreorderIsUnique` | src/proof_assistant/incremental/latex.py:478-497 | "the next file is the first unseen include of the latest file that has one" leaves one order for a main file |
| `Includes.ClosureIsReachable` | src/proof_assistant/incremental/latex.py:478-497 | a finished walk holds exactly what the main file reaches |
| `Includes.NextInclude` | src/proof_assistant/incremental/latex.py:487-495 | inside a visit an unseen include is what depth-first preorder asks for next |
| `Includes.IncludeWalk.Visit` | src/proof_assistant/incremental/latex.py:478-495 | the recursion extends the order, finishes every file it adds, and terminates on include cycles; a failure has a reachable cause |
| `Includes.IncludeWalk.VisitIncludes` | src/proof_assistant/incremental/latex.py:487-495 | the loop over the includes finishes its file |
| `StableIds.AutoIdsDiffer` | src/proof_assistant/incremental/store.py:444-448 | generated ids of different numbers differ, whatever their kinds |
| `StableIds.StateStore.AllocateClaimId` | src/proof_assistant/incremental/store.py:444-448 | kind, `:auto-` and the current number in six digits or more; the number moves by one |
| `StableIds.NearestExists` | src/proof_assistant/incremental/latex.py:648-657 | an eligible row always yields a nearest one |
| `StableIds.NearestIsUnique` | src/proof_assistant/incremental/latex.py:648-657 | distance, then id, leaves one nearest row |
| `StableIds.NearestRow` | src/proof_assistant/incremental/latex.py:648-659 | of the rows with the draft's file, kind and (in the first pass) statement, the one at the least ordinal distance, then with the least id; none exactly when there is none |
| `StableIds.SplitByLabel` | src/proof_assistant/incremental/latex.py:629-642 | refused exactly when two drafts share a label, otherwise labels are ids and the rest waits |
| `StableIds.MatchExact` | src/proof_assistant/incremental/latex.py:644-663 | the first pass in place: draft by draft the nearest row of the same statement that no earlier draft has taken, and the specified greedy matching |
| `StableIds.MatchLoose` | src/proof_assistant/incremental/latex.py:665-680 | the second pass in place: draft by draft the nearest free row of the same file and kind, allocation without one, and the specified greedy matching |
| `StableIds.AssignStableIds` | src/proof_assistant/incremental/latex.py:626-683 | the whole assignment: an error exactly on a repeated label and then no allocation; otherwise the two passes, sorted by file, ordinal and id; a draft without the id of a row of its own statement finds all of those gone to that statement |
| `StableIds.FinalKeepsStatements` | src/proof_assistant/incremental/latex.py:644-680 | an unlabelled draft gets another statement's id, or a new one, only when every earlier row of its own statement went to that statement |
| `StableIdLaws.ResultIsDraftsWithIds` | src/proof_assistant/incremental/latex.py:626-683 | every draft comes back as often as it went in; a label is its own id, any other id is an unlabelled row's of that file and kind, or newly generated |
| `StableIdLaws.IdsAreDistinctExactly` | src/proof_assistant/incremental/latex.py:626-683 | the ids are distinct if and only if labels, reused row ids and generated ids are pairwise disjoint |
| `StableIdLaws.ResultIdsAreDistinct` | src/proof_assistant/incremental/latex.py:626-683 | ids are distinct when labels keep apart from earlier unlabelled ids and both from the next numbers, as many as the shortfalls of the input add up to |
| `StableIdLaws.LabelMayCollide` | src/proof_assistant/incremental/latex.py:640-640 | a label spelled like the next generated id collides with it |
| `StableIdLaws.NewIdsAreTheShortfall` | src/proof_assistant/incremental/latex.py:665-680 | per file and kind, new ids number exactly the unlabelled claims beyond the earlier unlabelled rows |
| `StableIdLaws.CounterMovesByTheShortfall` | src/proof_assistant/incremental/latex.py:665-680 | the counter moves by the sum of these shortfalls over the files and kinds of the input |
| `StableIdLaws.NoneLeft` | src/proof_assistant/incremental/latex.py:666-679 | a new id is generated only when no unused row of that file and kind is left |
| `StableIdLaws.ReindexIsIdentity` | src/proof_assistant/incremental/latex.py:626-683 | indexing an unchanged manuscript again gives back the same claims with the same ids and allocates nothing, repeated statements included |
| `StableIdLaws.MovedStatementsKeepTheirIds` | src/proof_assistant/incremental/latex.py:644-663 | however claims are moved within their files: where statements of a file and kind are distinct, each that is still there keeps its id |
| `StableIdLaws.OwnRowIsNearest` | src/proof_assistant/incremental/latex.py:648-661 | among rows with the same statement, the one in the claim's own place is nearest |

## Left out

- SQLite, `flock`, the file system and networkx: atomic transitions, lease states, small directory states and a reachability relation stand for them. Transactions never fail halfway.
- A move of a packages tree is a single step.
- AdmissionLoop.AdmissionController.Acquire: the timeout is a number of polls. The `lease` context manager and its heartbeat thread appear only as heartbeats and releases. Nothing is said about wall-clock liveness.
- AiController.LimitStaysInBounds: takes each controller call as one step; `AiRaces` splits the calls into their transactions, where `CeilingHoldsExactly` says when the bound still holds.
- AiController.ThrottlesHalve: takes throttles one at a time; `AiRaces.ApartThrottlesHalve` is the statement for interleaved calls.
- AiController.AIAdmissionController.OnSuccess: the outcome and latency windows are left out, and the state and the limit change in one step.
- AiController.AIAdmissionController.OnThrottle: the outcome window and a Retry-After given as a date are left out.
- AiController.AIAdmissionController.OnTransientFailure: the outcome window is left out.
- `set_bounds`, manual limits, `reset_adaptive_history`, controller status records and the Lean calibration lease.
- Resizing.PoolController.ObserveSample: the pressure row that is shared through the store, and its freshness, are left out.
- ResizeRaces.RunKeepsInv: all processes have the same bounds and timing, and the calls of one controller do not overlap.
- ProofRounds.RunRounds: edges, targets and the selection are fixed during the loop; provider and technical error exits are left out.
- ProofRounds.ScheduleRound: the edges and the selection are arguments; the source reads them again on each trip.
- ProofRounds.RoundAdvances: a round is what its reports make of the states; `CertifiedRounds` derives the reports from a certification pass.
- CertifiedRounds.DeliveredRoundsSatisfyAll: the states that workers report before the certification pass are left out.
- Certification.CertifiesTheLeastSet: rejection texts, hashes other than the type hash, retired claim rows, and the final revalidation of unchanged certificates are left out.
- GroundingOrders.GroundedInEveryOrderExactly: a claim that starts CERTIFIED and falls only once its prerequisites are satisfied is excluded; for it `TargetsStandMeansGrounded` remains sufficient.
- Certification.CertificationStore.JudgeRow: a certificate keeps its status, type hash and declaration; the other columns are left out.
- Certification.CertificationStore.SetClaimState: the history row written with each change is left out.
- Certification.CertificationStore.RejectAll: the diagnostics added for each rejection are left out.
- Certification.CertificationStore.CertifyCurrentCorrespondence: the result lists are sets, and the reasons of rejections are left out.
- Components.BuildComponents: a component's number stands for its formatted id. Edges are sorted by number, which is the order of the formatted ids up to 9999 components.
- `source_changes`, graph exports, conjectural blockers, `_primary_incident` and incident collection: small case analyses beside the search and outline algorithms.
- Outline frames are values in a sequence rather than lists updated in place.
- CacheGc.CacheIndex.CollectGarbage: starts from a reconciled index, given as it stood at each of the three readings; nobody else writes it during the eviction loop. The free-space reading after each deletion is a parameter.
- CacheReservations.NeverOverCommitted: bytes against the managed limit only; the free-space limit is left out. A directory walk finds an entry as it is at one moment, an eviction deletes in one step, the locks of a dying session are free at once, and a depot's promotion counts as growth of its own entry.
- Depot.EveryRunIsSafeExactly: one depot key; the project's own link, manifest comparison, sealing and ownership checks are successes or failures given from outside.
- Depot.DependencyDepotClaim.Promote: staging, copying the manifest and linking are successes or failures given from outside.
- Depot.ClaimDependencyDepot: other processes run before each round of the waiting loop and between its two attempts, not inside an attempt; the clock is a number of rounds.
- `_resolve_include_path` and LaTeX tokenising: a file comes with its resolved includes. Files are told apart by their names, so a main file that is a symbolic link counts as a file of its own. Python's recursion limit is not modelled.
- StableIdLaws.ResultIdsAreDistinct: a condition on the input alone, which is sufficient; `IdsAreDistinctExactly` gives the exact one, on the ids that are reused and generated.
- Statement hashing, normalisation, reference extraction and the explicit reference graph.
- The command line, reports, provider turns, hardware probing, worktrees and Lean builds.

# Collective Scheduler: a verified model

Collective Scheduler decides which collective communication requests may run together.
Callers submit requests and publish evidence (participants, plans, dependencies,
reservations, congestion, capacity). `schedule` ranks the eligible requests and issues
grants, a fabric accepts or refuses each grant at handoff, and workers complete it. Cancelling,
superseding, fencing a worker boot, advancing the coordinator epoch and restoring a saved
image take authority away again. This project models that scheduler, its conflict test, its
wire protocol and its persistence codec in Dafny, and proves what holds over whole runs.

`dafny verify dfyconfig.toml` checks everything.

## How it is laid out

- `Types`, `Lifecycle`, `Conflict`, `Ranking`, `State`: the entities, the guarded lifecycle,
  footprints and their classification, the ranking order, and everything that only reads
  the state (readiness, eligibility, ranking keys, revalidation, overlap).
- `Steps`: one function per locked section of the scheduler, from state to state.
- `Loops`, `Scheduler`: the imperative form. The class `Scheduler` has the source's fields;
  each method is proved to change them exactly as the step function says, so every theorem
  about steps and runs is about this object.
- `Invariants`, `Selection`, `Decisions`: what every step keeps, and what one decision
  guarantees.
- `Runs`: whole systems. A run is any sequence of locked sections, with handoffs in flight,
  grants held by callers, completions, saved images and process restarts.
- `Validation`, `Answers`, `Factors`, `Presented`, `Effects`: what each operation means over the
  fields: which requests are stored, what readiness answers, what moves a candidate up the
  ranking, which grants can be handed off and completed, and what a call leaves behind.
- `Exclusion`, `Outcomes`, `Regrants`, `Staleness`, `Agreement`, `Accounting`, `Footprints`,
  `Drain`, `Fairness`, `Order`, `Rearrange`, `Submissions`: theorems over runs and decisions.
- `Scenarios`: concrete runs in which something one might expect of the scheduler fails.
- `Bytes`, `Fnv`, `Protocol`: little-endian words, the checksum, the framed protocol.
- `Codec`, `Layout`, `Images`, `Persistence`: the save and restore path down to the bytes.

## Assumptions of the model

- Each locked section is one atomic step; interleaving is the order of steps. `handoff` is
  two steps with the fabric's answer, an arbitrary boolean, between them.
- Ids, generations, times and counters are natural numbers that do not wrap. Scores, weights
  and units are reals; NaN does not occur.
- Callers present grants that were issued, possibly by an earlier process. A restart uses an
  image that was saved, or none, and starts in an epoch later than that of any grant issued
  before. An image with too many records for the new policy is refused.
- A double is saved as its bit pattern through a pair of functions; values that survive the
  pair are the ones the round trips speak about.

## What the proofs found

- Pending grants are not in the index of running grants, so `schedule` called while a grant is
  pending can select a request that shares its participant: `WaitingGrantIsOverlooked` is such a
  run. `ExclusionIffClear` gives the exact condition on what is selected. A caller can check
  before the call that no candidate shares a participant with a waiting grant; that is enough
  (`CarefulRunsAreExclusive`), and exclusion fails whenever a candidate that nothing ahead of it
  blocks does share one (`CollisionBreaksExclusion`).
- The second section of `handoff` looks neither at the request generation nor, once the record is
  ACTIVE, at the fabric's answer. An accepted answer for a superseded grant makes the new
  generation ACTIVE, and the grant the record holds runs exactly if the generations agree
  (`AnswerFitsIff`). The next decision can then grant its participant again although nothing was
  pending (`LateAnswerBreaksExclusion`). While the record is ACTIVE, any answer counts, lists and
  marks active the grant it is for, even a finished one (`AnswerToActive`), and a refusal starts
  the record's own grant (`RefusedGrantRuns`); `AnswerStartsIff` says exactly which answers start
  a grant.
- `supersede` decrements the counter of active grants also for a grant that was never active
  (`SupersedeUndercounts`), and `fenceWorkerBoot` never decrements it (`FenceLeavesCounter`).
  `ExactIffSafe` and `CoveredIffSafe` give the exact conditions under which the counter is right,
  and at least not too low.
- Within one process a request generation is granted at most once. Across restarts this holds
  when no restart leaves an issued grant to be granted again (`OneGrantPerGeneration`). `RegrantIff`
  says exactly for which grants a restart does so, and `GrantedTwice` is a run in which an old
  image leads to a second grant of the same generation.
- If each collective is asked for once, the order of submissions does not matter if and only if
  room does not run out on the way: either all acceptable requests find room or none does
  (`OrderIsIrrelevantIff`, `AnyOrderDecidesAlike`). `FullSchedulerDependsOnOrder` has two runs with
  room for one of two. Candidates for one collective that nothing but their labels
  tells apart are ranked by order of submission (`TiesGoByLabels`); `TiesGoToTheFirst` has runs in
  which that decides who is selected.
- Reservations are published without a generation check, so staleness by reservation is
  reversible; by every other generation it is permanent.
- The guard of `complete` admits DISPATCHING, but the lifecycle refuses it: completion happens
  only from ACTIVE (`AtMostOnceOverRuns`).
- `restore` reports trailing bytes only after the records have been replaced. `FailedRestore`
  says exactly when a failed restore changes the state, and `TornRestoreBreaksOrder` what is lost:
  records loaded as granted have no grant, so the invariant fails exactly if there are any.
- The payload limit is checked by the frame decoder only; the round trip holds exactly for
  payloads within it.

## Model

| member | source | states |
|---|---|---|
| Exclusion.MutualExclusion | src/scheduler.cpp:623-645 | in every state of every run in which `schedule` is called with nothing pending, running and pending grants have pairwise disjoint participants |
| Exclusion.CarefulRunsAreExclusive | src/scheduler.cpp:534-645 | mutual exclusion in every run in which, before each `schedule`, no handoff in flight has been superseded and no candidate shares a participant with a waiting grant |
| Exclusion.ClearCandidatesSuffice | src/scheduler.cpp:422-444 | one decision selects nothing that shares a participant with a live grant if no candidate shares one with a waiting grant; running grants are kept apart by the index |
| Exclusion.CollisionBreaksExclusion | src/scheduler.cpp:422-444 | whenever some candidate shares a participant with a waiting grant, and neither running grants, the candidates ranked ahead of it nor the bounds block it, the decision breaks exclusion |
| Scenarios.WaitingGrantIsOverlooked | src/scheduler.cpp:623-637 | a run of submit, schedule, submit, schedule in which two live grants share a participant |
| Scenarios.LateAnswerBreaksExclusion | src/scheduler.cpp:870-886 | a run in which exclusion fails although no `schedule` finds a grant pending: a superseded handoff is answered late |
| Exclusion.ExclusionIffClear | src/scheduler.cpp:534-645 | a run in which no `schedule` is called with a superseded handoff in flight is exclusive in all its states if and only if every decision selects requests clear of the grants live at the time |
| Exclusion.ScheduleDisjointIff | src/scheduler.cpp:623-645 | one decision keeps live grants disjoint if and only if no selected request shares a participant with a live grant |
| Exclusion.HandoffEndCases | src/scheduler.cpp:870-886 | in a run in which no `schedule` is called with a superseded handoff in flight, the fabric's answer activates the record's own current grant or changes nothing at all |
| Exclusion.AnswerFitsIff | src/scheduler.cpp:870-886 | in every reachable state, an accepted answer to a dispatching record makes it ACTIVE, and the grant it is for is the record's current one, and the record's grant runs afterwards, if and only if the grant is of the record's generation |
| Exclusion.AnswerToActive | src/scheduler.cpp:879-884 | an answer that finds the record ACTIVE changes no record and, whatever it says, counts, lists and marks active the grant it is for, if that is on file |
| Exclusion.AnswerStartsIff | src/scheduler.cpp:870-886 | in every reachable state, an answer for a grant that does not run yet starts it if and only if the grant is of the record's generation and the record is ACTIVE, or dispatching and the answer an acceptance |
| Scenarios.RefusedGrantRuns | src/scheduler.cpp:870-886 | a run in which the fabric's refusal of a grant makes it run |
| Exclusion.SelectedAvoidsRunning | src/scheduler.cpp:422-444 | a selected request shares no participant with any running grant |
| Runs.SysStep | src/scheduler.cpp:703-953 | every step of every caller or the fabric, and every restart with an image, with a refused image or without one, keeps the system invariant, and `schedule` does not throw |
| Runs.RunKeeps | src/scheduler.cpp:534-953 | the invariant tying records, grants, indexes and published generations holds in every state of every run |
| Runs.RunExtends | src/scheduler.cpp:534-698 | a run can always be extended by any enabled step: nothing gets stuck |
| Runs.RunEvolves | src/scheduler.cpp:541-585 | over a run of one process each record's (generation, lifecycle) only moves forward; REVALIDATION_REQUIRED is left only by cancelling or superseding |
| Invariants.PublishParticipantKeeps | src/scheduler.cpp:703-734 | publishing a participant keeps the invariant and only moves records forward |
| Invariants.SupersedeKeeps | src/scheduler.cpp:787-808 | superseding keeps the invariant and only moves records and grants forward |
| Invariants.SupersedeEnds | src/scheduler.cpp:787-808 | superseding finishes the grant of the old generation, if it is on file, and leaves every other grant alone |
| Invariants.FenceKeeps | src/scheduler.cpp:928-953 | fencing keeps the invariant and only moves records and grants forward |
| Invariants.FenceEndsGrants | src/scheduler.cpp:928-953 | fencing finishes exactly the grants of the records it hits and changes no generation of a participant or a request |
| Invariants.CompleteKeeps | src/scheduler.cpp:891-926 | completing keeps the invariant and only moves records and grants forward |
| Invariants.CompleteEnds | src/scheduler.cpp:891-926 | an accepted completion finishes that grant and leaves every other grant alone; a refused one changes no grant |
| Presented.CompletionIff | src/scheduler.cpp:891-926 | in every reachable state a completion is accepted exactly for the grant under which an ACTIVE record runs, in the current epoch, with all participants ready, and under both boots of one of them |
| Presented.ForeignBootsAreRefused | src/scheduler.cpp:912-916 | under boots that no participant of the grant is published with, a completion is refused and nothing changes |
| Presented.CompletedWhen | src/scheduler.cpp:891-926 | every completion accepted in a run was presented, at that moment, under both boots of a participant of the grant |
| Presented.CompletionEffect | src/scheduler.cpp:917-926 | it completes that record, notes who completed it, takes the grant from the index and changes no other record |
| Presented.ValidIff | src/scheduler.cpp:363-401 | a grant revalidates as VALID exactly if it is of the record's generation and the current epoch, the record is not finished, and all its evidence is published as it names it; the refusals say which came first |
| Presented.HandoffStartsIff | src/scheduler.cpp:858-868 | in every reachable state a handoff starts exactly for the grant by which a GRANTED record holds its authority, with fresh evidence |
| Presented.HandoffBeginEffect | src/scheduler.cpp:858-868 | it dispatches that record, marks that grant as handed off and changes nothing else |
| Presented.ConfirmedIff | src/scheduler.cpp:870-889 | `handoff` confirms exactly the accepted answers that leave the record ACTIVE and the grant on file, which is active exactly then; what it confirmed runs exactly if the generations agree |
| Presented.ConfirmedRuns | src/scheduler.cpp:870-889 | in calm runs it confirms exactly the accepted handoffs whose grant runs under its record |
| Invariants.ScheduleNeverThrows | src/scheduler.cpp:552-575 | no lifecycle transition inside `schedule` throws in a state that satisfies the invariant |
| Decisions.ScheduleKeeps | src/scheduler.cpp:534-698 | a whole decision keeps the invariant and only moves records forward |
| Outcomes.AtMostOnceOverRuns | src/scheduler.cpp:891-926 | in every run each grant completes at most once, and only from ACTIVE although the guard also names DISPATCHING; each generation of a request is granted at most once by one process and at most once per epoch |
| Regrants.OneGrantPerGeneration | src/scheduler.cpp:639-645 | in every run, restarts included, each generation of a request is granted at most once, if no restart leaves an issued grant regrantable in the sense of RegrantIff |
| Regrants.RegrantIff | src/scheduler.cpp:986-1011 | after a restart an earlier grant's generation can be granted again if and only if the new process knows the request at an older generation only, or not at all with its id still to be assigned |
| Regrants.GrantedTwice | src/scheduler.cpp:787-808 | a run with a restart from an old image in which one generation is granted twice |
| Outcomes.SealedForever | src/scheduler.cpp:855-926 | once a grant is over, no handoff and no completion is ever accepted for it again, whatever follows |
| Outcomes.DecidingStepSeals | src/scheduler.cpp:787-829 | cancelling, superseding, fencing, recovering, restarting and completing each end the grants they touch for good |
| Outcomes.RestartSealsEarlierGrants | src/scheduler.cpp:831-835 | after a restart under a later epoch no earlier grant is ever handed off or completed, however old the image |
| Staleness.StalenessIsPermanent | src/scheduler.cpp:363-401 | without recovery, a grant mismatched on request, epoch, plan, participant, dependency or congestion generation never revalidates again |
| Staleness.OnceStaleAlwaysStale | src/scheduler.cpp:363-401 | every grant is valid when issued, and from its first mismatch on it is never valid again |
| Staleness.NewGrantIsValid | src/scheduler.cpp:470-504 | a grant revalidates as VALID in the state it was issued in |
| Staleness.ReservationStalenessIsReversible | src/scheduler.cpp:747-751 | a grant made stale by another reservation is valid again once the old one is republished |
| Agreement.AgreementOverRuns | src/scheduler.cpp:703-734 | in every run, records that are GRANTED, DISPATCHING or ACTIVE expect exactly the published generations, and running grants are listed under each participant |
| Agreement.IndexedInvalidationIsAScan | src/scheduler.cpp:710-731 | invalidating through the participant index changes the same records as a scan of all records |
| Effects.PublicationInvalidatesIff | src/scheduler.cpp:703-734 | publishing a participant at a later generation or under another worker boot sends exactly the records to revalidation that are READY or hold authority and name another generation of it |
| Effects.PublicationsTake | src/scheduler.cpp:703-746 | a publication takes effect unless something of a later generation is there, and changes nothing under other names |
| Effects.LevelsTake | src/scheduler.cpp:747-763 | congestion and capacity are replaced unless of a later generation, reservations always |
| Effects.FenceHits | src/scheduler.cpp:928-953 | fencing sends exactly the records it hits that are READY or hold authority to revalidation and finishes their grants |
| Effects.FencedAreNoCandidates | src/scheduler.cpp:928-953 | no request with a participant on a fenced boot is a candidate until the participant is published again |
| Effects.CancelEffect | src/scheduler.cpp:810-829 | cancelling makes an unfinished record CANCELLED, finishes its open grant and nothing else |
| Effects.DecisionIdentity | src/scheduler.cpp:534-550 | a decision takes the next identity and the current epoch, and uses up one identity for itself, one per grant and one per group |
| Effects.GrantsAreIssued | src/scheduler.cpp:470-504 | the i-th grant of a decision names its request, plan, participants and workload and the generations published at the moment |
| Agreement.ScheduleIsAlwaysLegal | src/scheduler.cpp:552-575 | in every run ELIGIBLE, QUEUED, DRAINING and FAILED never occur between calls and `schedule` never throws |
| Decisions.IndexRefinesScan | src/scheduler.cpp:422-444 | inside `schedule` the indexed conflict test finds exactly the running grants that a scan of all grants finds sharing a participant |
| Decisions.CandidateIsAuthorized | src/scheduler.cpp:576-584 | whatever its score, a candidate has current participants, plan, dependencies, reservation, congestion, capacity, window and workload |
| Decisions.AuthorizedIsCandidate | src/scheduler.cpp:576-584 | every ungranted request with all of these is a candidate |
| Selection.EligibilityIsReadinessWindowAndWorkload | src/scheduler.cpp:244-299 | `hard_eligible` on fresh readiness asks only for readiness, an open window and a workload; its other checks are implied |
| Selection.ReadyMeansAuthority | src/scheduler.cpp:203-242 | `compute_readiness` answers READY exactly when all published evidence is current and sufficient |
| Answers.StaleIff | src/scheduler.cpp:203-242 | readiness is STALE exactly if the first evidence not in order, of participants, plan, dependencies and reservation, is published at another generation than the request names |
| Answers.WaitingIff | src/scheduler.cpp:203-242 | each waiting and blocked answer is given exactly if the first evidence not in order is of its kind and missing, not ready, invalid or not enough |
| Answers.CandidateIff | src/scheduler.cpp:244-299 | over the fields: a record is a candidate exactly if it is DECLARED, WAITING or READY, all its evidence is published as it names it and suffices, now is within its window, and it has an execution authority |
| Answers.RejectionIs | src/scheduler.cpp:244-299 | the reason `hard_eligible` gives on fresh readiness |
| Answers.UngrantedAfterSchedule | src/scheduler.cpp:552-575 | what a decision makes of a record not granted before: GRANTED exactly if selected, else REVALIDATION_REQUIRED exactly if stale and not new, READY, or WAITING |
| Answers.ScheduleKeepsInPlay | src/scheduler.cpp:552-575 | a request nothing of which is published at another generation is never sent to revalidation by a decision |
| Answers.CapacityFreesTheRequest | src/scheduler.cpp:235-240 | a request that lacks nothing but capacity is still WAITING after a decision and a candidate once enough is published |
| Selection.SelectIsSound | src/scheduler.cpp:623-637 | the greedy pass yields a subsequence of the ranking whose members may pairwise overlap, conflict with no running grant and respect both bounds |
| Selection.SelectIsMaximal | src/scheduler.cpp:623-637 | every candidate left out is obstructed by a bound, a running grant or one of the requests selected ahead of it |
| Decisions.DecisionSplitsCandidates | src/scheduler.cpp:682-686 | selected and fallback together are a permutation of the ranking, which is exactly the candidates |
| Decisions.DecisionIsMaximal | src/scheduler.cpp:623-637 | in a decision, what is not selected is obstructed by what was selected ahead of it |
| Decisions.UnblockedIsSelected | src/scheduler.cpp:623-637 | the candidate at any position of the ranking is selected if no running grant shares a participant with it, it may overlap each candidate ahead of it, and the bounds leave room for all of them |
| Decisions.TopIsSelected | src/scheduler.cpp:623-637 | the best candidate is selected whenever no running grant shares a participant with it and the bounds leave room |
| Decisions.SelectedAreApart | src/scheduler.cpp:403-420 | any two members of a decision share no participant, no claimed or planned resource, no link and no reservation, have valid plans whose bandwidths fit the residual together, and neither is EXCLUSIVE or UNKNOWN |
| Decisions.OverlapIff | src/scheduler.cpp:403-420 | over the fields: two requests in play may overlap exactly if all of that holds and utilization is below a hard ceiling |
| Decisions.DecisionGrantsAreParallel | src/scheduler.cpp:639-646 | the i-th grant of a decision is the current grant of its i-th selected request |
| Drain.TopRankedIsSelected | src/scheduler.cpp:623-637 | with nothing running and positive bounds the best candidate is selected |
| Drain.RoundProgress | src/scheduler.cpp:534-645 | each round of schedule, handoff and complete serves its selection and leaves the other candidates as candidates, fewer than before |
| Drain.DrainCompletesAll | src/scheduler.cpp:855-926 | N candidates all complete, each exactly once, within N rounds |
| FairnessBounds.StarvedFirst | src/scheduler.cpp:316-361 | a starved candidate ranks before one that is not, if the other factors differ by less than 999 times the starvation weight |
| FairnessBounds.StarvedIsBypassedOnlyByStarved | src/scheduler.cpp:623-680 | a starved candidate passed over again is obstructed by a running grant, or by the bounds and the requests selected ahead of it, all starved themselves |
| FairnessBounds.AccountsAfterSchedule | src/scheduler.cpp:663-680 | what a decision does to an account: bypasses, waiting, deficit, grants, service and starvation of those selected and passed over, and nothing to others; every record in play ages |
| Order.DecisionIgnoresLabels | src/scheduler.cpp:596-637 | if two states differ in assigned request ids and sequence numbers only, and no two candidates tie on score, key and collective, ranking, selection and fallback are the same up to that renaming |
| Order.TiesGoByLabels | src/scheduler.cpp:610-621 | of two candidates that tie, the one with the smaller sequence number ranks ahead |
| Submissions.OrdersAreRelabelled | src/scheduler.cpp:770-785 | unless room runs out on the way, submitting any permutation of a list of requests leads to the same state up to a renaming of the new request ids, and up to sequence numbers; requests already on file keep their names |
| Submissions.SubmissionOrderIsIrrelevant | src/scheduler.cpp:610-621 | submitting any permutation of a list of requests leads to the same decision, collective for collective, if no candidates tie and room does not run out on the way |
| Submissions.AnyOrderDecidesAlike | src/scheduler.cpp:610-621 | the same under a condition on the requests alone: each collective is asked for once; a scheduler that is already full is covered |
| Submissions.OrderIsIrrelevantIff | src/scheduler.cpp:770-785 | if each collective is asked for once, every order of submission leaves the same collectives on file if and only if the bound does not admit some but not all of the acceptable requests |
| Scenarios.FullSchedulerDependsOnOrder | src/scheduler.cpp:770-785 | two runs of a scheduler with room for one collective: of two requests for different collectives, the one submitted first is selected |
| Scenarios.TiesGoToTheFirst | src/scheduler.cpp:610-621 | runs with room to spare in which, of two requests for one collective that cannot run together, the one submitted first is selected |
| Rankings.BeforeIsStrictTotalOrder | src/scheduler.cpp:610-621 | the sort comparator is a strict total order on distinct requests |
| Rankings.RankingIsForced | src/scheduler.cpp:596-621 | any sorted arrangement of the candidates is the ranking, so map iteration order cannot matter |
| Rankings.InsertSorted | src/scheduler.cpp:610-621 | inserting keeps the arrangement sorted and adds exactly that entry |
| Rankings.CompareRanks | include/collective_scheduler/deterministic.hpp:96-105 | the index loop computes the lexicographic comparison |
| Rankings.ComesBefore | src/scheduler.cpp:610-621 | the comparator of the sort, branch by branch, decides the order |
| Factors.PriorityCounts | src/scheduler.cpp:329-330 | two records that differ in priority alone differ in score by the difference over a hundred times the priority weight, at the second place of the key |
| Factors.DeadlineCounts | src/scheduler.cpp:321-328 | a deadline ahead is worth the deadline weight over one more than the seconds left, a past one nothing, at the first place |
| Factors.DeficitCounts | src/scheduler.cpp:335-341 | deficit counts up to one, under the deficit weight and through the pressure under the starvation weight |
| Factors.BypassesCount | src/scheduler.cpp:331-338 | bypasses count by their share of the limit, and a thousandfold once it is reached |
| Factors.AgeCounts | src/scheduler.cpp:342-343 | a thousand ticks of age are worth the age weight |
| Factors.DurationCounts | src/scheduler.cpp:344-352 | each second of expected duration costs the duration and the communication weight |
| Factors.ReservationCounts | src/scheduler.cpp:346-349 | a published reservation is worth the reservation weight |
| Factors.ClaimsCount | src/scheduler.cpp:352-353 | each claim costs the footprint weight |
| Factors.PlainScore | src/scheduler.cpp:354-359 | what is left of a score is availability less congestion, the same for all |
| Factors.HigherPriorityIsAhead | src/scheduler.cpp:596-621 | of two candidates equal in all else the one with the higher priority ranks ahead, if that weight is positive |
| Factors.NearerDeadlineIsAhead | src/scheduler.cpp:596-621 | the one with the nearer deadline |
| Factors.NeedierIsAhead | src/scheduler.cpp:596-621 | the one with the greater deficit |
| Factors.OlderIsAhead | src/scheduler.cpp:596-621 | the older one |
| Factors.ShorterIsAhead | src/scheduler.cpp:596-621 | the one that takes less time |
| Factors.ReservedIsAhead | src/scheduler.cpp:596-621 | the one with a published reservation |
| Factors.FewerClaimsAreAhead | src/scheduler.cpp:596-621 | the one with fewer claims |
| Factors.KeyBreaksTies | src/scheduler.cpp:610-621 | of two candidates with equal scores, the one whose key is larger where they first differ ranks ahead |
| Factors.CollectiveBreaksTies | src/scheduler.cpp:610-621 | of two with equal keys, the one with the smaller collective id |
| Accounting.ExactIffSafe | src/scheduler.cpp:799 | in a calm run the counter of active grants is exact throughout if and only if no supersede finishes an inactive grant while it is positive and no fence hits an active grant |
| Accounting.CounterIsExact | src/scheduler.cpp:870-926 | without supersedes and fences the counter equals the number of active grants in every state of every run |
| Accounting.CoveredIffSafe | src/scheduler.cpp:799 | in a calm run the counter is never below the number of active grants if and only if no supersede finishes an inactive grant while the counter is positive and has no slack |
| Accounting.CounterNeverTooLow | src/scheduler.cpp:928-953 | without supersedes, fences or not, the counter is at least the number of active grants in every state of every run |
| Accounting.PatientRunsAreBounded | src/scheduler.cpp:627 | in every run without supersedes, under one policy, in which `schedule` finds nothing pending, active and pending grants never exceed the bound |
| Scenarios.FenceLeavesCounter | src/scheduler.cpp:928-953 | a run without supersedes in which a fence leaves the counter above the number of active grants |
| Scenarios.SupersedeUndercounts | src/scheduler.cpp:799 | a run without fences in which a supersede leaves the counter below the number of active grants |
| Accounting.ActiveGrantsAreBounded | src/scheduler.cpp:627 | disciplined runs without offending supersedes, under a bound that is not lowered, never have more active and pending grants than the bound |
| Conflicts.SetIntersect | src/conflict.cpp:13-21 | the two-cursor walk decides intersection of sorted vectors |
| Conflicts.BuildFootprint | src/conflict.cpp:44-59 | the footprint holds the sorted, duplicate-free participants, resources and links |
| Conflicts.ClassifyConflict | src/conflict.cpp:61-96 | on normalized footprints the two-cursor walks and the decision chain give the classification |
| Footprints.NormalOverRuns | src/conflict.cpp:44-59 | in every run all footprints on file are sorted and free of duplicates, which the two-cursor walk relies on |
| Conflicts.ClassificationIff | src/conflict.cpp:61-96 | which conflict is found: a shared participant, else a shared resource, else a shared link, else a missing or invalid plan |
| Conflicts.NoConflictMeansDisjoint | src/conflict.cpp:61-96 | two requests may overlap exactly when they share no participant, resource or link and both plans are valid |
| Lifecycles.LifecycleCell.Transition | include/collective_scheduler/lifecycle.hpp:103-112 | a transition happens exactly when it is allowed, and otherwise nothing changes |
| Lifecycles.LifecycleCell.Promote | src/scheduler.cpp:459-468 | promotion falls through READY, ELIGIBLE and QUEUED to GRANTED, or refuses |
| Loops.ReadinessOf | src/scheduler.cpp:203-242 | the loops over participants, dependencies and claims compute readiness |
| Loops.CountConflicts | src/scheduler.cpp:422-444 | collecting through the index and counting each grant once gives the number of conflicts |
| Loops.TestOverlap | src/scheduler.cpp:403-420 | the chain of tests decides whether two requests may overlap |
| Loops.InsertUnder | src/scheduler.cpp:446-448 | inserting under each participant adds exactly those entries |
| Loops.RemoveUnder | src/scheduler.cpp:450-457 | removing under each participant takes exactly those entries and drops emptied keys |
| Loops.RankCandidates | src/scheduler.cpp:596-621 | sorting the candidates in any order of walking gives the ranking |
| Loops.SelectGreedy | src/scheduler.cpp:623-637 | the selection loop computes the greedy selection |
| Loops.CollectFallback | src/scheduler.cpp:682-686 | the last loop computes the ranking without the selected |
| Validation.ValidationIff | src/scheduler.cpp:136-177 | validation passes exactly the requests whose parts fit together, whose window can be met, whose sizes are within the bounds and whose payloads add up to 64 bits, and its complaint says what is wrong |
| Validation.PassingIsMeetable | src/scheduler.cpp:152-159 | a window passes exactly if there is a time to start and every start it allows is within the deadline |
| Validation.SubmitStoresIff | src/scheduler.cpp:770-785 | `submit` stores a request exactly if there is room and it is valid, under the next id and with a fresh account |
| Validation.SupersedeReplacesIff | src/scheduler.cpp:787-808 | `supersede` replaces a request exactly by a valid one of a later generation, in place and with its account |
| Validation.RequestsAreSound | src/scheduler.cpp:136-177 | in every run every request on file has distinct participants with a generation each, a plan, distinct exclusion classes and a window that can be met |
| Schedulers.Scheduler.PublishParticipant | src/scheduler.cpp:703-734 | refuses a lower generation, otherwise publishes and invalidates as its step says |
| Schedulers.Scheduler.Submit | src/scheduler.cpp:770-785 | the error or the stored record, and the id used up in either case past the bound check |
| Schedulers.Scheduler.Supersede | src/scheduler.cpp:787-808 | the error, or the request replaced in place and its grant finished |
| Schedulers.Scheduler.Cancel | src/scheduler.cpp:810-829 | an unfinished record becomes CANCELLED and an open grant is finished |
| Schedulers.Scheduler.Schedule | src/scheduler.cpp:534-698 | the decision and the new state: refreshed records, issued grants, fairness accounts, counters |
| Schedulers.Scheduler.IssueGrants | src/scheduler.cpp:639-645 | one grant per promotable selected request, in order |
| Schedulers.Scheduler.HandoffBegin | src/scheduler.cpp:858-868 | starts exactly when the grant revalidates and the record can be dispatched |
| Schedulers.Scheduler.HandoffEnd | src/scheduler.cpp:870-888 | activates and indexes the grant when accepted while dispatching, and confirms exactly then |
| Schedulers.Scheduler.Complete | src/scheduler.cpp:891-926 | accepts exactly under current authority and matching boots, and finishes the grant |
| Schedulers.Scheduler.FenceWorkerBoot | src/scheduler.cpp:928-953 | withdraws readiness on the boot, invalidates the records it hits and finishes their grants |
| Schedulers.Scheduler.Recover | src/scheduler.cpp:986-1011 | forgets grants and evidence; unfinished records need revalidation |
| Schedulers.Scheduler.TakeSnapshot | src/scheduler.cpp:1038-1059 | the image holds the counters and each record exactly once |
| Schedulers.Scheduler.LoadImage | src/scheduler.cpp:1081-1100 | replaces the durable state, first record of an id wins, and rebuilds the request index |
| Schedulers.Scheduler.Restore | src/persistence.cpp:66-84 | header, checksum, state section, leftover and recovery, in that order, with the state each failure leaves |
| Images.RestoreOfSnapshot | src/scheduler.cpp:986-1011 | restoring a snapshot keeps counters, requests, ages and fairness, keeps finished lifecycles, and leaves no grant and no evidence |
| Images.RestoreKeeps | src/scheduler.cpp:1061-1101 | whatever scheduler an image is restored into, the result satisfies the invariant |
| Codec.DecOfEnc | src/serialize.cpp:6-55 | decoding inverts encoding for every layout, whatever follows |
| Codec.TruncationIsRejected | src/persistence.cpp:33-50 | every strict prefix of an encoding is rejected |
| Codec.DecExtends | src/persistence.cpp:37-50 | a successful read never depends on bytes past what it consumed |
| Codec.Writer.Put | src/persistence.cpp:13-29 | appends exactly the encoding |
| Codec.Reader.Get | src/persistence.cpp:31-52 | reads exactly what decoding gives and stops right after it |
| Layout.RequestRoundTrips | src/serialize.cpp:6-55 | what the writer's table lays out, the reader's table reads back to the same request, whatever follows, and every strict prefix is rejected |
| Layout.FairnessRoundTrips | src/serialize.cpp:57-65 | the same for fairness accounts |
| Layout.GrantRoundTrips | src/serialize.cpp:67-114 | the same for grants |
| Layout.PlanRoundTrips | src/serialize.cpp:133-154 | the same for plans |
| Layout.TablesAgree | src/serialize.cpp:6-154 | writers and readers agree on order and width of all fields |
| Layout.StateReadsBack | src/scheduler.cpp:1061-1079 | a state section reads back exactly when its record count is within the reader's bound, and is rejected otherwise |
| Persistence.RestoreOfSaved | src/persistence.cpp:56-84 | a saved image is restored if and only if the bound on history records admits it; otherwise nothing changes |
| Persistence.SaveThenRestore | src/persistence.cpp:56-84 | bytes saved from a scheduler restore to its counters and records, needing revalidation, without grants or evidence |
| Persistence.SavedTellsApart | src/persistence.cpp:56-64 | images saved as the same bytes are the same image |
| Persistence.OneByteIsCaught | src/persistence.cpp:66-77 | any one-byte substitution makes an intact image fail the header and checksum tests |
| Persistence.CorruptionChangesNothing | src/persistence.cpp:66-77 | a saved image with one byte changed is rejected before the state changes |
| Persistence.TrailingBytesTearTheState | src/persistence.cpp:78-83 | leftover bytes under a matching checksum are reported only after the records were replaced |
| Persistence.FailedRestore | src/persistence.cpp:66-84 | a restore that fails leaves the state alone, unless the bytes are intact, a state can be read and bytes remain; then it has loaded that state |
| Persistence.TornRestoreBreaksOrder | src/persistence.cpp:78-83 | such a load of a snapshot satisfies the invariant if and only if no record in it is granted, dispatching or active |
| Persistence.Save | src/persistence.cpp:56-64 | header, state section and checksum of both |
| Persistence.CheckImage | src/persistence.cpp:66-77 | accepts exactly the images with the right length, magic, version and checksum |
| Fnv.RoundInjective | include/collective_scheduler/deterministic.hpp:48-56 | one round is injective in the running state and in the byte |
| Fnv.HashCatchesOneByte | include/collective_scheduler/deterministic.hpp:48-56 | buffers that differ in one byte have different checksums |
| Fnv.Fnv1a64 | include/collective_scheduler/deterministic.hpp:48-56 | the hashing loop computes the fold |
| Bytes.FromLeOfLe | src/protocol.cpp:17-38 | reading back a little-endian word gives the value |
| Bytes.LeOfFromLe | src/protocol.cpp:17-38 | every word of bytes is the little-endian form of its value |
| Protocol.EncodeFrame | src/protocol.cpp:56-67 | header, payload and checksum of both |
| Protocol.ParseOfEncode | src/protocol.cpp:56-94 | whatever follows it, an encoded frame parses back to its message |
| Protocol.EncodeOfParse | src/protocol.cpp:69-94 | whatever the decoder takes off the front is byte for byte an encoded frame |
| Protocol.DecodeIsExact | src/protocol.cpp:69-94 | the consumed bytes are the concatenated encodings of the delivered messages, and the leftover holds no complete frame |
| Protocol.ChunkingIsInvisible | src/protocol.cpp:69-94 | for every way of splitting a stream, incremental decoding fails exactly when one-shot decoding fails, and otherwise gives the same messages and leftover |
| Protocol.RoundTripIffWithinLimit | src/protocol.cpp:56-94 | a message survives encoding and decoding exactly when its payload is within the limit |
| Protocol.OneByteCorruptionIsRejected | src/protocol.cpp:69-84 | one changed byte outside the length field of a lone frame makes decoding fail |
| Protocol.LengthCorruption | src/protocol.cpp:77-81 | a raised length is rejected beyond the limit and otherwise makes the decoder wait |
| Protocol.Decoder.DecodeFrames | src/protocol.cpp:69-94 | the loop delivers the complete frames in order and keeps the leftover; on failure the buffer stays and earlier messages have been delivered |

## Left out

- Sockets, threads, files and process start-up (src/coordinator.cpp, src/worker.cpp): they only forward to the scheduler.
- The mutex itself: each locked section is one step.
- The fabric, broker and preemption ports: acceptance is an arbitrary boolean; release, revoke and preemption requests do not change scheduler state.
- Priority inversion events, overlap group modes, ranking factors, explanation strings and `info`: reported, never read back by the scheduler.
- Exclusion classes in conflicts: `make_footprint` never fills them. Resource and link exclusion against grants that are already running: the index is keyed by participant only, so this is not a property of the code.
- Aggregate bandwidth of a selected group: `can_overlap` bounds it pairwise only.
- IEEE rounding, NaN scores and infinite claim units, and 64-bit wrap-around of times, ids and counters.
- Wire layouts of participants, congestion, reservations, dependencies and capacities: they are more tables of the kind proved for requests, fairness accounts, grants and plans.
- The kind of error a failed restore reports: every rejection is one outcome.
- Forged grants and hand-built images.
- Persistence.Save: saves an image whose numbers fit their widths; the source truncates nothing because its types are that wide.
- Exclusion.ExclusionIffClear: says nothing of runs in which `schedule` is called while a superseded handoff is still in flight; `Scenarios.LateAnswerBreaksExclusion` shows that exclusion can fail there.
- Exclusion.HandoffEndCases: assumes the invariant of such runs; `Exclusion.AnswerFitsIff`, `Exclusion.AnswerToActive` and `Exclusion.AnswerStartsIff` say what a single answer does in any reachable state.
- Schedulers.Scheduler.Schedule: asks that footprints on file are normalized, which `Footprints.NormalOverRuns` shows of every reachable state.
- Schedulers.Scheduler.TakeSnapshot: asks that each record is filed under its own id, which the invariant guarantees.

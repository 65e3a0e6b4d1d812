# Best-node-selector: a Dafny model

This project models the scheduling side of the best-node-selector and proves what its
protocols and formulas guarantee.

* Any number of scheduler calls and background syncs share one Redis store of versioned
  node records. Each call tries its ranked nodes one by one: it takes the node's short-lived
  lock, reads the record again, reserves by a version-checked Lua script, unlocks, asks the
  API list, and binds or rolls back. `Protocol` is this as a step system in which calls,
  syncs, lock expiries and lost messages interleave at will; `Invariant`, `Safety`,
  `Losses` and `Attempts` hold the proofs about its runs; `SchedulerRepo` and `ReserveAndBind` are the repository and the
  call as classes whose methods change the store in place, each command shown to be one step;
  `Scheduling` is the pipeline before it (intent, filter, score, rotation) and the whole call.
* The scorer turns a cluster snapshot into one score per feasible node. `ScorerSpec`,
  `ScoringRules`, `Criticality` and `Percentiles` say what it computes and prove its bounds,
  its monotonicity and its independence of every map order; `Scorer` is the code's own loops,
  proved against that; `Runner` is one cycle over all services.
* `ChangeNode` is the scale-up/scale-down protocol under a service lock, `ChangeNodeApi` the
  handler on top of it. `Override` is the one-shot override token, `RoundRobin` the counter
  that rotates lists and picks nodes.
* `Rebalancer`, `RebalancerRules`, `Migrations` and `RateLimit` are the rebalancing controller:
  when a cycle acts, which pods it moves off which nodes, and how many in any window of time.
* `Accounting` relates the two ways in which the system adds up pod requests.

A run is any finite sequence of steps from an initial state, a step that is not enabled does
nothing, and every theorem about `Run(s, steps)` therefore speaks of every interleaving. A
method with `Interfere` in it lets any number of foreign steps happen there; what becomes of
the messages of its own is an input, one answer for each step of the run.

Assumptions: a Redis command or script is atomic; UUIDs are fresh (they are drawn from a
counter, or are the operation's own identity); requests and initial usage are not negative;
quantities are exact (`int`, and `real` where the code uses doubles); `Log1p` is any function,
`Round` rounds half away from zero; the last-run key is read at the instant a cycle starts.
Messages need not be reliable: a request may be lost, or executed with its reply lost.

What the proofs brought to light in the code, each with its exact condition:

* A finished call holds what it should, one reservation where it bound and none elsewhere,
  if and only if none of its rollback requests and none of the replies to its effective
  reserves was lost; each such loss leaks one reservation for good (`Losses.FinishedCallExact`,
  `Losses.HoldsAsItShould`; a run in which it happens: `Losses.LossesHappen`). Likewise a node
  stays locked by a call that is not about to release it if and only if the reply to the
  call's lock, or its request to release a lock it still had, was lost and the lock has not
  expired since (`Losses.OrphanedExactly`). All this is about commands that are sent once: a
  client that sends a script again after a lost reply may execute a rollback or a reserve
  twice, which is not modelled.
* `reserveAndBind` would index an empty candidate list when the pod is already assigned; the
  scheduler never calls it with one (`Scheduling.Place`, `Scheduling.Schedule`).
* The scheduler's soft score saturates at 100: the two free ratios alone add up to 200 points,
  so nodes that are free enough cannot be told apart (`Scheduling.ScoreSaturates`).
* A change-node lock that runs out does no harm by itself: the replica count stays exact as
  long as no second operation is admitted to the deployment while one is at work on it
  (`ChangeNode.ScaleConservation`), which never happens while operations finish within their
  lock's life (`ChangeNode.OnTimeNeverIntruded`). If it does happen, the count may end one too
  high although every message arrives, or come out right, depending on who scales back last
  (`ChangeNode.IntrusionMayLeaveOneTooMany`). It is never too low
  (`ChangeNode.NeverBelowInitial`), so that in every run, intruded on or not, it is restored
  if and only if no scaling took effect or the last one that did was a scale-back by an
  operation that had counted the initial number (`ChangeNode.RestoredExactly`). Without
  intrusion every lost scale-up reply or scale-back request leaves one replica behind
  (`ChangeNode.LeaversOfRun`). A finished operation's lock stays exactly where the reply to its locking or its release
  request was lost, until it runs out (`ChangeNode.OrphanedExactly`).
* The cooldown does not hold when the last-run key cannot be read, or when writing it had no
  effect, an error the code discards: then cycles may act any time apart
  (`RateLimit.FailuresBypassCooldown`). It is short by up to a second, because the key keeps
  whole seconds (`RateLimit.TruncationLossIsTight`), and a cooldown above a day is cut to a day
  by the key's expiry (`RateLimit.CutToADay`). At any time after the last cycle that acted,
  the next may act exactly when its read fails, that one's write took effect and the cooldown
  less the dropped fraction of a second has passed since its start or a day since its end, or
  the write had no effect and the older key allows it (`RateLimit.NextCycleExactly`).
* An imbalance is two nodes more than 35 points apart, or one node using more than 135% of a
  resource (`RebalancerRules.ImbalanceExactly`).
* The fallback scheduler's request total for a node is the same for every order of the pods if
  and only if no init request exceeds its pod's containers, or every pod with containers
  exceeds them by the same, largest, amount (`Accounting.SameInEveryOrder`). A node with
  nothing allocatable is never chosen only because its score is not a number.
* A lost round-robin reply uses up the turn of a node without anyone selecting it, and can
  starve a node (`RoundRobin.LostRepliesStarve`); a node is selected exactly as often as it is
  due less the replies lost on its turns (`RoundRobin.SelectionIsFair`).

## Model

| member | source | states |
|---|---|---|
| SchedulerRepo.ReserveRespectsCapacity | best-node-selector/internal/redis/scheduler_repo.go:30-64 | a successful reserve leaves use within what is allocatable at that instant, and keeps a record within capacity there |
| SchedulerRepo.RollbackUndoesReserve | best-node-selector/internal/redis/scheduler_repo.go:67-87 | rolling back a reserve restores the usage exactly and leaves the version two higher; no clamp acts |
| SchedulerRepo.MergeKeepsUsage | best-node-selector/internal/redis/scheduler_repo.go:92-125 | a merge over an existing record takes the nine metadata fields only and commutes with a rollback |
| SchedulerRepo.FilterAgreesWithReserve | best-node-selector/internal/scheduler/scheduler.go:307-364 | a record that passes the hard filter is accepted by the reserve script at its own version and at no other |
| NodeModel.FilterImpliesValidation | best-node-selector/internal/scheduler/scheduler.go:565-606 | a record synced from an API node that passes the filter makes the validation of that API node succeed |
| NodeModel.FilterAdmits | best-node-selector/internal/scheduler/scheduler.go:307-364 | exactly which records the hard filter admits, field by field, with the room test of the script |
| NodeModel.ValidationExactly | best-node-selector/internal/scheduler/scheduler.go:565-606 | exactly which API nodes the validation accepts: a true Ready condition, the architecture on the stable label or else the beta one, no blocking taint untolerated; it refuses when any of these fails |
| NodeModel.SyncedExactly | best-node-selector/internal/scheduler/scheduler.go:678-728 | what a sync takes from an API node, field by field |
| SchedulerRepo.SchedulerRepository.SetNodeState | best-node-selector/internal/redis/scheduler_repo.go:202-210 | one merge in place; the reply tells whether the message arrived |
| SchedulerRepo.SchedulerRepository.LockNode | best-node-selector/internal/redis/scheduler_repo.go:249-263 | takes a free lock with a fresh UUID, and never a held one |
| SchedulerRepo.SchedulerRepository.UnlockNode | best-node-selector/internal/redis/scheduler_repo.go:266-279 | removes the lock only while it carries the caller's UUID |
| SchedulerRepo.SchedulerRepository.ReserveResources | best-node-selector/internal/redis/scheduler_repo.go:282-311 | the reserve script in place, with its three errors; every error leaves the store alone |
| SchedulerRepo.SchedulerRepository.RollbackResources | best-node-selector/internal/redis/scheduler_repo.go:314-341 | the rollback script in place |
| Invariant.StepKeepsInv | best-node-selector/internal/redis/scheduler_repo.go:30-125 | every step of every party keeps the invariant that ties usage, version, log and each call's bookkeeping together |
| Invariant.RollbackIsExact | best-node-selector/internal/redis/scheduler_repo.go:67-87 | a call about to roll back owns an outstanding reservation that the node's usage covers |
| Safety.Conservation | best-node-selector/internal/redis/scheduler_repo.go:30-87 | in every run each node's usage is the initial one plus all outstanding reservations, and its version the initial one plus the number of scripts executed |
| Safety.ClampsNeverFire | best-node-selector/internal/redis/scheduler_repo.go:80-83 | no clamp of a rollback ever acts in a run |
| Safety.StepKeepsCapacity | best-node-selector/internal/redis/scheduler_repo.go:30-125 | from a state within capacity, a step leaves it within capacity if and only if it is not a sync that shrinks a node below its use |
| Safety.CapacitySafety | best-node-selector/internal/redis/scheduler_repo.go:30-125 | in every interleaving of calls, expiries, losses and such syncs, every node stays within capacity |
| Safety.EveryReserveFits | best-node-selector/internal/redis/scheduler_repo.go:48-60 | even after shrinking syncs, each successful reserve leaves its node within capacity |
| Safety.UsageIsFunctionOfVersion | best-node-selector/internal/redis/scheduler_repo.go:43-60 | at two moments of a run with equal versions a node has equal usage |
| Safety.OneReservePerVersion | best-node-selector/internal/redis/scheduler_repo.go:43-46 | for a node and an expected version at most one reserve takes effect in a run |
| Safety.NoLostUpdate | best-node-selector/internal/scheduler/scheduler.go:478-516 | a reserve that succeeds acts on exactly the usage its caller read |
| Safety.SecondHolderRefused | best-node-selector/internal/redis/scheduler_repo.go:43-46 | of two calls that both believe they hold the expired lock and read the same version, the second is refused |
| Safety.VersionMonotone | best-node-selector/internal/redis/scheduler_repo.go:58-60 | a node's version never decreases |
| Safety.FinishedCallAccount | best-node-selector/internal/scheduler/scheduler.go:455-551 | a finished call has one outstanding reservation on the node it bound, none elsewhere, but for those it has leaked |
| Safety.TwoBumpsPerRollback | best-node-selector/internal/scheduler/scheduler.go:520-541 | a call's reserves and rollbacks on a node balance: each rolled-back try raised the version twice |
| Losses.LeakedExactly | best-node-selector/internal/scheduler/scheduler.go:503-541 | what a call has leaked on a node is the number of its rollback requests lost there plus its effective reserves whose reply was lost there |
| Losses.FinishedCallExact | best-node-selector/internal/scheduler/scheduler.go:455-551 | a finished call's outstanding reservations on a node: one per such loss, and one where it bound |
| Losses.HoldsAsItShould | best-node-selector/internal/scheduler/scheduler.go:455-551 | it holds one where it bound and none elsewhere if and only if no such loss occurred there |
| Losses.OrphanedExactly | best-node-selector/internal/scheduler/scheduler.go:455-541 | at every moment a node is locked with a UUID that a call drew and is not about to release if and only if the reply to that lock, or the request to release it while it was in place, was lost and the lock has not expired since |
| Losses.LossesHappen | best-node-selector/internal/scheduler/scheduler.go:503-521 | on any node that admits the pod, a call whose reserve reply and unlock request are lost ends unbound with a reservation outstanding and the node locked |
| Attempts.TriedInOrder | best-node-selector/internal/scheduler/scheduler.go:455-551 | in every run a call has tried to lock exactly its first candidates, one after the other |
| Attempts.HeldAsListed | best-node-selector/internal/scheduler/scheduler.go:487-541 | a call that holds a reservation made it at the version its candidate was listed with; one that has bound did so on a node the API list vouches for |
| Attempts.ReserveActsOnListing | best-node-selector/internal/scheduler/scheduler.go:487-516 | no update is lost from the listing to the script: a reserve takes effect only while the record has the usage it had when it was listed, and on a re-read that passed the filter |
| Safety.LockReleasedAtBoundary | best-node-selector/internal/scheduler/scheduler.go:455-541 | between iterations a call holds no lock but stranded ones |
| Safety.ReleaseRemovesOnlyOwn | best-node-selector/internal/redis/scheduler_repo.go:266-279 | an unlock never removes another call's lock |
| Safety.SyncLosesNoReservation | best-node-selector/internal/scheduler/scheduler.go:716-730 | whatever happened since the sync read the record, its merge keeps the current usage and version |
| Safety.InitialisedOnce | best-node-selector/internal/redis/scheduler_repo.go:92-125 | a node without a record gets one from exactly one merge, with zero usage and version zero; every other merge keeps the usage and version it finds |
| Safety.ChecksAgree | best-node-selector/internal/scheduler/scheduler.go:489-541 | filter, script and validation agree on a record just synced |
| Safety.UndisturbedAttemptSucceeds | best-node-selector/internal/scheduler/scheduler.go:455-541 | undisturbed, the first candidate is reserved, bound and unlocked |
| ReserveAndBind.Cluster.ReserveUnderLock | best-node-selector/internal/scheduler/scheduler.go:455-521 | lock, re-read, re-check, reserve, unlock: each command one protocol step, under any interference |
| ReserveAndBind.Cluster.ReserveAndBind | best-node-selector/internal/scheduler/scheduler.go:422-551 | ends with exactly one reservation on the node returned as reserved, made at the version it was listed with, whose entry in the API list is ready, of the pod's architecture and without an untolerated blocking taint; with none on every other exit, but for those leaked; and with a lock of its own exactly where a lost lock reply or unlock request left one that has not expired; falls back only after every candidate was tried |
| ReserveAndBind.Cluster.UpdateNodeStateFromApi | best-node-selector/internal/scheduler/scheduler.go:678-731 | the sync as two commands with anything in between; it succeeds exactly when the merge's message arrives, and then the stored record has the API's name, labels, amounts, readiness and taint keys, and the two properties off their stable or beta labels |
| Scheduling.ExtractPodIntent | best-node-selector/internal/scheduler/scheduler.go:197-283 | refused exactly when a request is missing or the selector names an empty architecture or system, which are read off the stable label, else the beta one, else arm64 and linux; otherwise both requests are positive, each the larger of container sum and largest init |
| Scheduling.FreerScoresNoLess | best-node-selector/internal/scheduler/scheduler.go:388-419 | freer in both resources, no more taints, no less a worker: no lower soft score |
| Scheduling.EmptierScoresNoLess | best-node-selector/internal/scheduler/scheduler.go:388-419 | of two records, a larger free share of both resources, no more taints and no less a worker: no lower score |
| Scheduling.ScoreOfRecord | best-node-selector/internal/scheduler/scheduler.go:388-419 | a record's score between its two clamps |
| Scheduling.ScoreSaturates | best-node-selector/internal/scheduler/scheduler.go:388-419 | exactly when a node reaches the upper clamp, for any taints and for workers and others |
| Scheduling.Candidates | best-node-selector/internal/scheduler/scheduler.go:134-171 | the candidate list is the records that pass the filter, with the versions they were listed with, sorted and rotated; none is ranked behind a fuller one unless they score the same |
| Scheduling.Schedule | best-node-selector/internal/scheduler/scheduler.go:46-194 | which node is returned, and how, in every case: a decision that is listed and can be bound; the first listed node without a step taken if there is no intent, listing or record that passes the filter, or the pod cannot be looked up; the pod's own node; otherwise the filtered, ranked and rotated candidates are tried in order, and either one reservation is held, on a vouched-for one, or every one was tried and none is held |
| Percentiles.PercentileBetween | best-node-selector/internal/scorer/scorer.go:484-502 | a percentile lies between minimum and maximum |
| Percentiles.PercentileMonotone | best-node-selector/internal/scorer/scorer.go:484-502 | a higher quantile is never smaller |
| Percentiles.PercentileOnGrid | best-node-selector/internal/scorer/scorer.go:484-502 | at a grid point the percentile is the list element |
| Percentiles.NormExactly | best-node-selector/internal/scorer/scorer.go:504-516 | a value is nothing up to its band, one from the band's end on, its share of the way in between, and one half in a band of one value |
| Percentiles.BandPermutes | best-node-selector/internal/scorer/scorer.go:475-482 | the band depends on the values, not on their order |
| Percentiles.MedianPermutes | best-node-selector/internal/scorer/scorer.go:518-531 | so does the median |
| Percentiles.MedianSplits | best-node-selector/internal/scorer/scorer.go:518-531 | at most half of the samples lie below the median and at most half above; it is a sample, or halfway between two, rounded towards zero |
| Scorer.NormalizeMapValues | best-node-selector/internal/scorer/scorer.go:462-473 | normalising maps into the unit interval and preserves the order of the nodes' values |
| Names.LexExactly | best-node-selector/internal/scorer/scorer.go:287-295 | names compare like words in a dictionary |
| Names.LowerExactly | best-node-selector/internal/scorer/scorer.go:348-357 | lower-casing changes capitals only, each to its small letter |
| Criticality.ComputeCriticality | best-node-selector/internal/scorer/scorer.go:388-432 | every criticality lies in the unit interval and the target's is positive |
| Criticality.CriticalityExactly | best-node-selector/internal/scorer/scorer.go:412-425 | two fifths for each centrality and one fifth for the lack of availability, each against its band; an unknown availability counts as half |
| Criticality.ScaleExactly | best-node-selector/internal/scorer/scorer.go:388-411 | the bands a service is measured against, from all metrics and the catalog |
| Criticality.AvailabilityExactly | best-node-selector/internal/scorer/scorer.go:391-411 | the last report on a service counts, and without one the last catalog entry, as fully available or not at all |
| Criticality.MoreCriticalIsHigher | best-node-selector/internal/scorer/scorer.go:388-432 | no higher centrality and no lower availability: no higher criticality |
| Criticality.AggregatePeerTraffic | best-node-selector/internal/scorer/scorer.go:348-357 | a service's traffic is the sum of the rates of all entries of its name, in either direction |
| Criticality.TopKPeerWeights | best-node-selector/internal/scorer/scorer.go:359-386 | the k heaviest peers, whatever order the traffic map is iterated in: none left out comes before one kept, by weight and then by name |
| Criticality.WeightMonotone | best-node-selector/internal/scorer/scorer.go:359-386 | more traffic never weighs less |
| Scorer.EstimateIncomingRequest | best-node-selector/internal/scorer/scorer.go:434-448 | the default without samples, otherwise amounts that split the samples of all the service's pods, whatever order the runtime map is iterated in |
| ScoringRules.RawAtMostMax | best-node-selector/internal/scorer/scorer.go:253-283 | the theoretical maximum lies between 1.1 and 1.3 and no raw score exceeds it: both guards are dead |
| ScoringRules.RawScoreExactly | best-node-selector/internal/scorer/scorer.go:178-266 | the raw score as one weighted sum over the node's facts, with utilisation as a tent from 30% over 65% to 100% |
| ScoringRules.ScoreExactly | best-node-selector/internal/scorer/scorer.go:268-285 | the score is 15 and 85 times the raw score's share of its theoretical maximum, rounded |
| ScorerSpec.LowerClampActs | best-node-selector/internal/scorer/scorer.go:278-280 | in a cluster of two feasible nodes the clamp at zero acts |
| ScoringRules.ScoreBounds | best-node-selector/internal/scorer/scorer.go:268-285 | scores lie between 15 and 100, with the exact condition for 100 |
| ScoringRules.Dominance | best-node-selector/internal/scorer/scorer.go:250-285 | no worse in every respect means no lower score |
| ScoringRules.CloserToTargetIsBetter | best-node-selector/internal/scorer/scorer.go:193-195 | a projected share nearer to the 65% target has no lower utilisation score |
| ScorerSpec.AllScoresInRange | best-node-selector/internal/scorer/scorer.go:250-285 | every feasible node of every cluster scores between 15 and 100 |
| ScorerSpec.FeasibleExactly | best-node-selector/internal/scorer/scorer.go:140-171 | a node is feasible if and only if it is listed, untainted (or all listed are tainted), ready, schedulable and, in integers, at most 85% of either resource would be used |
| ScorerSpec.FactsExactly | best-node-selector/internal/scorer/scorer.go:153-213 | what is measured on a node, from the runtime snapshot, the peers, the criticalities and the picks so far |
| ScorerSpec.FieldExactly | best-node-selector/internal/scorer/scorer.go:211-252 | what the feasible nodes are compared against: two bands, the most services on one, the most picks of any |
| ScorerSpec.NoWorseScoresNoLess | best-node-selector/internal/scorer/scorer.go:163-285 | dominance in the scores of a whole cluster |
| ScorerSpec.OrderIndependence | best-node-selector/internal/scorer/scorer.go:153-295 | permuting the node list changes neither the scores nor the best node |
| Scorer.PickBest | best-node-selector/internal/scorer/scorer.go:288-295 | the running comparison finds the lexicographically least node of highest score |
| Scorer.Scorer.ScoreService | best-node-selector/internal/scorer/scorer.go:98-285 | the loops compute the specified feasible nodes and scores, in any map order; scored are exactly the listed, untainted (or all), ready and schedulable nodes of which at most 85% would be used |
| Scorer.Scorer.ChooseNode | best-node-selector/internal/scorer/scorer.go:287-322 | the least best node, or the preferred node if and only if it is feasible |
| Scorer.NeutralDecision | best-node-selector/internal/scorer/scorer.go:611-665 | untainted nodes, or all, at 50 or 30, and the least name as best |
| Scorer.GetCurrentNodesFromRuntime | best-node-selector/internal/scorer/scorer.go:450-460 | exactly the nodes with a pod of the service, sorted by name, whatever order the runtime map is iterated in |
| Scorer.SettingExactly | best-node-selector/internal/scorer/scorer.go:98-145 | which answers a service's scores are made of; what failed counts as empty, and names are compared in lower case |
| Scorer.Scorer.ComputeForService | best-node-selector/internal/scorer/scorer.go:78-346 | a scored decision if and only if some node may take the request, scoring exactly those, and a neutral one otherwise; one more selection is counted if and only if a scored one is saved |
| Runner.RunOnce | best-node-selector/internal/scorer/runner.go:41-132 | in one cycle every service of the index is scored, or as many as a cancellation allows; each decision that can be saved is saved, is the scorer's own and picks a scored node of the cluster; the cycle state tallies the scored ones per node |
| ChangeNode.StepKeepsInv | best-node-selector/internal/transport/http/api.go:553-689 | every step keeps the replica account, the locks and what each operation read |
| ChangeNode.ScaleConservation | best-node-selector/internal/transport/http/api.go:553-689 | at every moment, unless an operation was admitted while another was at work: replicas are the initial count, plus the operations cut short, plus one while the operation at work is scaled up |
| ChangeNode.ScaleRestored | best-node-selector/internal/transport/http/api.go:661-716 | with nothing in flight the count is restored if and only if no operation's scaling was cut short |
| ChangeNode.LeaversOfRun | best-node-selector/internal/transport/http/api.go:705-716 | the operations cut short are as many as the lost scale-up replies and lost scale-back requests of the run |
| ChangeNode.OneAtATime | best-node-selector/internal/redis/scheduler_repo.go:449-461 | without intrusion at most one operation works on a deployment |
| ChangeNode.OnTimeExcludes | best-node-selector/internal/redis/scheduler_repo.go:449-461 | of operations that are on time at most one works on a service |
| ChangeNode.ReleaseRemovesOnlyOwn | best-node-selector/internal/redis/scheduler_repo.go:465-476 | releasing removes the operation's own lock and no other |
| ChangeNode.IntrudedExactly | best-node-selector/internal/redis/scheduler_repo.go:449-461 | a deployment counts as intruded on if and only if some step of the run admitted an operation to it while another was at work on it |
| ChangeNode.OnTimeNeverIntruded | best-node-selector/internal/redis/scheduler_repo.go:16-27 | while operations finish within the lock's two minutes no deployment is intruded on |
| ChangeNode.UndisturbedRoundTrip | best-node-selector/internal/transport/http/api.go:553-689 | undisturbed, scaling up and back restores the count and frees the lock |
| ChangeNode.IntrusionMayLeaveOneTooMany | best-node-selector/internal/transport/http/api.go:592-611 | a run with an intrusion that ends one replica too high if the second operation scales back last, and right if the first does |
| ChangeNode.NeverBelowInitial | best-node-selector/internal/transport/http/api.go:592-716 | in every run, whatever is lost, runs out or intrudes, no deployment has fewer replicas than at the start, and no operation ever counted fewer |
| ChangeNode.RestoredExactly | best-node-selector/internal/transport/http/api.go:592-716 | in every run the count is the initial one if and only if no scaling took effect or the last that did was a scale-back by an operation that had counted the initial number |
| ChangeNode.OrphanedExactly | best-node-selector/internal/redis/scheduler_repo.go:449-476 | a finished operation's lock is in place if and only if the reply to its locking of the free lock, or its release request while the lock was its own, was lost and the lock has not run out since |
| ChangeNodeApi.Api.AwaitReplacement | best-node-selector/internal/transport/http/api.go:613-659 | finds a pod exactly if a listing asked for in time shows one: another pod of the service, on the target, running and ready; gives up only after the full timeout |
| ChangeNodeApi.Api.ChangeNode | best-node-selector/internal/transport/http/api.go:437-703 | it leaves a replica exactly when its scale-up's reply or its scale-back request was lost, and a lock exactly when its locking's reply or its release request was, on a lock it had, which has not run out; having waited, it succeeds exactly if a listing asked for in time shows another pod of the service on the target, running and ready, and requests the old pod's deletion exactly then; keeps the replica account |
| Override.TokensConserved | best-node-selector/internal/redis/scheduler_repo.go:418-445 | overrides stored are those consumed, displaced, expired and pending, for every service and every kind of node |
| Override.ConsumeTakesLatest | best-node-selector/internal/redis/scheduler_repo.go:424-445 | each consumption takes the latest store, untouched since |
| Override.NoDoubleConsume | best-node-selector/internal/redis/scheduler_repo.go:424-445 | between two consumptions lies another store |
| Override.OverrideStore.SetNodeOverride | best-node-selector/internal/redis/scheduler_repo.go:418-420 | the latest store displaces a pending one and touches no other service |
| Override.OverrideStore.ConsumeNodeOverride | best-node-selector/internal/redis/scheduler_repo.go:424-445 | get and delete in one; an empty node counts as none |
| Override.OverrideStore.GetOptimalNode | best-node-selector/internal/transport/http/api.go:256-309 | override, then preference, then decision; only the override is used up |
| RoundRobin.Fair | best-node-selector/internal/scheduler/scheduler.go:158-160 | m consecutive indices meet each of n positions m/n times, rounded down or up |
| RoundRobin.DrawsAreFair | best-node-selector/internal/redis/scheduler_repo.go:375-385 | in every run of concurrent callers without expiry the drawn indices do |
| RoundRobin.SelectionIsFair | best-node-selector/internal/transport/http/api.go:895-928 | each ranked node is due m/n times in m draws, rounded down or up; it is selected once for each delivered increment on one of its turns, and falls short by the increments on its turns whose reply was lost |
| RoundRobin.LostRepliesStarve | best-node-selector/internal/transport/http/api.go:909-919 | with every other reply lost, one of two nodes is never selected |
| RoundRobin.EveryNodeEveryPlaceOnce | best-node-selector/internal/scheduler/scheduler.go:159-166 | over n consecutive indices every node takes every place of the rotated list exactly once |
| RoundRobin.RotatedAt | best-node-selector/internal/scheduler/scheduler.go:159-166 | which node the rotated list shows at a place |
| RoundRobin.RotateRanked | best-node-selector/internal/scheduler/scheduler.go:155-171 | the two array copies rotate the list and lose nothing |
| RoundRobin.RoundRobinCounters.GetAndIncrementRoundRobin | best-node-selector/internal/redis/scheduler_repo.go:375-385 | hands out the value before the increment; a lost reply still uses up its index |
| RoundRobin.ScoresFromDecisionRoundRobin | best-node-selector/internal/transport/http/api.go:879-929 | each candidate's score: 100 for the preferred candidate, or the node whose turn it is, and 50 for the others; without a turn the decided scores stand; the counter moves only when a turn is drawn |
| RebalancerRules.MovesOnlyOffFullNodes | best-node-selector/internal/rebalancer/rebalancer.go:325-334 | without a hotspot and within capacity the cost filter passes exactly above 190% of both shares together, hence above 90% on each |
| RebalancerRules.StoredNodeMovedOnlyWhenFull | best-node-selector/internal/rebalancer/rebalancer.go:325-334 | the same for every record of every run of the reservation protocol whose syncs do not shrink nodes below their use |
| RebalancerRules.OverloadedNotFree | best-node-selector/internal/rebalancer/rebalancer.go:171-176 | no node is on both lists |
| RebalancerRules.OverloadedExactly | best-node-selector/internal/rebalancer/rebalancer.go:152-176 | overloaded: ready, measurable, and more than three quarters of either resource used, in integers |
| RebalancerRules.FreeExactly | best-node-selector/internal/rebalancer/rebalancer.go:152-176 | free: ready, measurable, and less than a quarter of both used, in integers |
| RebalancerRules.SpreadExactly | best-node-selector/internal/rebalancer/rebalancer.go:144-180 | exactly when the running extremes of the scan differ by more than 35 points |
| RebalancerRules.ImbalanceExactly | best-node-selector/internal/rebalancer/rebalancer.go:144-180 | an imbalance is two nodes more than 35 points apart or one above 135% |
| RebalancerRules.ImbalanceIsAPair | best-node-selector/internal/rebalancer/rebalancer.go:144-180 | so it is a pair whenever no node is above 135% |
| RebalancerRules.WithinCapacityIsFine | best-node-selector/internal/rebalancer/rebalancer.go:144-180 | in particular within capacity |
| RebalancerRules.OvercommitIsNoPair | best-node-selector/internal/rebalancer/rebalancer.go:144-180 | a node above 135% of either resource is an imbalance alone |
| RebalancerRules.TriggeredExactly | best-node-selector/internal/rebalancer/rebalancer.go:144-188 | exactly when a cycle is triggered, in terms of the listed nodes' shares |
| Migrations.PassesExactly | best-node-selector/internal/rebalancer/rebalancer.go:237-334 | exactly which pods pass the four filters, in the pod's own terms |
| Migrations.BudgetsExactly | best-node-selector/internal/rebalancer/rebalancer.go:283-311 | the first matching budget decides |
| Migrations.QueueExactly | best-node-selector/internal/rebalancer/rebalancer.go:201-212 | on the queue of a cycle are all pods listed for its nodes, and nothing else |
| Migrations.NoThrashing | best-node-selector/internal/rebalancer/rebalancer.go:213-232 | between a recorded move of a pod and its next one lies the whole window, less the second that the key cannot tell, unless the key cannot be read or a day has passed |
| Migrations.DefaultsExactly | best-node-selector/internal/rebalancer/rebalancer.go:94-114 | what unset settings stand for, and how long the last-run key lives |
| RateLimit.WindowBound | best-node-selector/internal/rebalancer/rebalancer.go:65-114 | spaced and capped cycles move a bounded number of pods in any window |
| RateLimit.LegalIsSpaced | best-node-selector/internal/rebalancer/rebalancer.go:65-114 | if the store answers, cycles that act start more than the gap apart: the cooldown less one second, at most a day |
| RateLimit.NextCycleExactly | best-node-selector/internal/rebalancer/rebalancer.go:95-114 | exactly when a cycle may act at any time after the last one that acted: its read fails; that one's write took effect and the cooldown less the dropped fraction of a second has passed since its start, or a day since its end; or the write had no effect and the older key allows it, which it does if that one could read |
| RateLimit.RecordedRunDecides | best-node-selector/internal/rebalancer/rebalancer.go:95-114 | the same in terms of the last run whose write took effect, at any time and for every history |
| RateLimit.WithinGapExactly | best-node-selector/internal/rebalancer/rebalancer.go:95-114 | within the gap a cycle acts exactly when its read of the key fails, or the last write had no effect and the key left in place allows it |
| RateLimit.CutToADay | best-node-selector/internal/rebalancer/rebalancer.go:95-114 | with every read and write answered, a cooldown above a day lets two cycles act a day apart, and no sooner if it is a second above |
| RateLimit.FailuresBypassCooldown | best-node-selector/internal/rebalancer/rebalancer.go:95-108 | a failed read or a failed write lets two cycles act any time apart |
| RateLimit.TruncationCostsLessThanASecond | best-node-selector/internal/redis/scheduler_repo.go:147-161 | the whole seconds of the key cost less than a second of the cooldown |
| RateLimit.TruncationLossIsTight | best-node-selector/internal/redis/scheduler_repo.go:147-161 | all but a nanosecond of that second can be lost, for every cooldown |
| Rebalancer.EvaluateTriggers | best-node-selector/internal/rebalancer/rebalancer.go:144-188 | the scan triggers on an imbalance, a free node or a hotspot, and returns exactly the overloaded nodes, by the sum of their shares, and exactly the free ones |
| Rebalancer.Controller.ExecuteLimitedMigrations | best-node-selector/internal/rebalancer/rebalancer.go:190-235 | goes through the pods of the overloaded nodes in order, all of them unless the cap is reached or time runs out, and nothing without a free node; moves exactly those that pass the filters when they are checked and whose deletion succeeds, at most the cap |
| Rebalancer.Controller.RunOnce | best-node-selector/internal/rebalancer/rebalancer.go:65-102 | exactly when a cycle is skipped, and which pods any other checks and moves; without a hotspot and within capacity pods are moved only off nodes above 90% on both resources while another is below 25% on both |
| Rebalancer.Controller.MigratedWithinCap | best-node-selector/internal/rebalancer/rebalancer.go:65-102 | pods migrated are at most the cap times the cycles not skipped |
| Rebalancer.Controller.MigrationRate | best-node-selector/internal/rebalancer/rebalancer.go:65-114 | if the store answers, cycles in any window move at most the cap times one more than the number of gaps in it |
| Rebalancer.Controller.NextCycle | best-node-selector/internal/rebalancer/rebalancer.go:95-114 | at any time, when the controller's next cycle may act, from its own key, configuration and history |
| Accounting.Sandwich | scheduler/main.go:327-354 | the running total lies between the sum of container requests and the sum of effective requests, for every list in every order |
| Accounting.RunningIsContainerSum | scheduler/main.go:327-354 | it is the container sum if and only if no init request exceeds the container sum so far |
| Accounting.RunningIsLargest | scheduler/main.go:327-354 | its closed form |
| Accounting.SameInEveryOrder | scheduler/main.go:327-354 | all orders of the pods give the same total if and only if no init request exceeds its pod's containers, or every pod with containers exceeds them by the same, largest, amount |
| Accounting.OrderMatters | scheduler/main.go:327-354 | otherwise, two orders with different totals |
| Accounting.SumsPermute | best-node-selector/internal/services/k8s_placement_provider.go:167-201 | neither the provider's sum nor the container sum depends on the order |
| Accounting.LoadsExactly | scheduler/main.go:327-354 | which pods count on a node: those assigned to it that have neither succeeded nor failed |
| Accounting.PodResourceRequest | best-node-selector/internal/services/k8s_placement_provider.go:207-243 | the two loops compute the larger of container sum and largest init: at least the sum and every init, and equal to one of them |
| Accounting.AccumulateUsage | best-node-selector/internal/services/k8s_placement_provider.go:161-204 | each node's use is the sum of effective requests of its live pods |
| Accounting.SumRequests | scheduler/main.go:327-354 | each node's total, updated in place, is the running total of its live pods |
| Accounting.ScoreByBottleneck | scheduler/main.go:377-389 | the score in terms of the more and the less used resource; between 50 and 200 |
| Accounting.SelectNode | scheduler/main.go:363-407 | a node of highest score among those that fit, in any map order, and none exactly when none fits |
| Accounting.ScoreAndSelectNode | scheduler/main.go:295-408 | a node of highest score among the eligible ones that fit by the running totals, with the exact condition of each error; on the chosen node all containers fit; none is refused for lack of resources while an eligible node has room on top of all effective requests |

## Left out

- HTTP, JSON, routing, logging, configuration, the Kubernetes and Redis clients: what they answer is a parameter or a free choice. Their retries, which could execute a command twice, are not modelled.
- Floating-point rounding, integer widths (a replica count at its maximum would wrap), and names beyond ASCII in lower-casing.
- Names in the reservation protocol are identifiers; the scorer keeps them as strings because it orders them.
- Timeouts of single calls are lost messages; the wall clock appears only where it decides something (change-node lock and polling, rebalancer cooldown).
- Scheduling.Schedule: does not say which pod is bound where; the precomputed decision and the fallbacks bind without reserving, as the code does.
- Scheduling.Candidates: takes the listing of records as given, so nothing is said about how stale it is; whether a node is a worker is an input; failed-filter reasons are only logged.
- Scorer.Scorer.ComputeForService: the panic handler, which writes a neutral decision, is not modelled.
- ChangeNodeApi.Api.ChangeNode: starts once the deployment is known; reading the scale and updating it are one command; storing the override is modelled on its own in Override; pods are only listed, and nobody else changes replica counts.
- Rebalancer.Controller.RunOnce: the latency hotspot is an input, one controller uses the last-run key, and each pod is checked at one instant.
- RoundRobin.DrawsAreFair: says nothing across an expiry of the counter, which restarts it at zero.
- RoundRobin.ScoresFromDecisionRoundRobin: the ranking that the library sort returns is a parameter, since ties may fall either way.
- Accounting.ScoreAndSelectNode: which nodes are eligible (tolerations, control plane) is an input.
- Nothing ties the store's usage to the cluster's: nothing in the code releases a reservation when its pod is deleted.
- The destructive change-node fallback, preferences' persistence, decision storage and the list endpoints would add only simple members.

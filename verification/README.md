# Verified model of the Predator RF coordination layer

Predator RF tracks radio emitters with a fleet of sensor nodes. Its Python backend decides which
receiver listens where, which node keeps custody of a track, which operator approvals and peer
messages are acted on, and how track records are indexed and merged; its C++ core chains DSP
processors; its bundled libcorrect tools search for convolutional codes. This project models the
decision logic of those parts and proves what they promise over all inputs and all runs, and where
the code falls short of its own comments, exactly when it keeps its word.

`dafny verify dfyconfig.toml` checks everything. There is one module per component:

| modules | subject |
|---|---|
| `Matching`, `Sweep` | slot-to-segment matching, rotation, sweep plans |
| `AutoTasking` | concurrent tune reservations, budget and spacing |
| `Custody` | custody elections, handover windows, stand-downs |
| `Dedupe`, `Bridges` | per-peer duplicate suppression of the two RNS bridges |
| `Tracks`, `TrackManagers`, `TrackRuns`, `MergeCore` | tracks, the frequency index, ageing and merging |
| `CrossStation`, `StationDedup` | cross-station deduplication |
| `Approvals` | the bounded approval queue |
| `Base32`, `Schema`, `Replication` | token text, configuration schema, placeholder round trip |
| `DspBlocks`, `DspChains`, `DspRuns`, `DspEffects`, `DspChainObjects` | blocks, temporary stops, chain rewiring |
| `PolySearch`, `Annealing`, `Bpsk` | the search tools and the error simulator |
| `Wrappers`, `Arith`, `Digits`, `Seqs`, `SetFacts`, `Sorting`, `Text` | shared vocabulary |

Components that change state in place are classes whose methods are tied to pure step functions; the
theorems are about those functions and about all sequences of steps. Sections under a lock are atomic
steps, because none of them awaits while holding the lock. Times are integer nanoseconds, frequencies
and scores real numbers.

## Where the code and its documentation differ

The model follows the code.

- The revisit estimate is ceil(segments / slots) phases, but the rotation moves one segment per
  phase, so it needs segments − slots + 1. The two agree exactly for one slot or for at least
  segments − 1 slots (`Matching.EstimateIsExactIff`, for plans `Sweep.EstimateSufficesIff`); two wide
  radios and four segments miss one (`Sweep.EstimateFallsShort`).
- `blockBefore` of the DSP chain returns the first enabled block, not the nearest one. Switching a
  block keeps the wiring exactly when at most one block before it is enabled (`DspRuns.StepWiredIff`,
  with a three-block example in `DspRuns.ThirdSkipsSecond`).
- A block stopped inside a temporary-stop bracket is revived when the bracket closes
  (`DspBlocks.HealthyIff`).
- `merge_duplicates` goes on using a track it has merged away. Observation counts are conserved
  exactly when no such reuse happens (`Tracks.MergeDuplicatesConservesIff`), in particular in
  first-seen order; three rehydrated tracks end up with two observations, or four
  (`TrackRuns.MergeMiscounts`).
- Decided approvals are said not to cause back-pressure, but behind a waiting one they still take up
  room (`Approvals.DropsTooEarlyIff`).
- Separators are tolerated in base32 text, but import computes the byte length from the text with its
  separators (`Base32.ImportRecoversIff`); two dashes behind any token spoil it
  (`Base32.DashesSpoilImport`).
- A second change between available primaries inside a handover window cuts the first window short
  (`Custody.OverlapSurvivesIff`, over whole runs `Custody.OverlapPersists`, with three nodes in
  `Custody.SecondHandoverStandsDown`).

## Model

| member | source | states |
|---|---|---|
| `Matching.SearchFailsIff` | backend/coordination/sweep_coordinator.py:186-197 | the fallback walk finds nothing exactly when the radio can tune no uncovered segment |
| `Matching.PicksAreMatching` | backend/coordination/sweep_coordinator.py:171-204 | a phase assigns slots to segments one to one, each within reach, and covers as many segments as it tasks slots |
| `Matching.PicksAreMaximal` | backend/coordination/sweep_coordinator.py:184-199 | a slot left idle could have taken no segment the phase leaves uncovered |
| `Matching.PickIsFirstFree` | backend/coordination/sweep_coordinator.py:177-198 | slot i takes the first segment, going up from (i + phase) mod N and round the band, that it can tune and no earlier slot has |
| `Matching.PhaseIsHalfOptimal` | backend/coordination/sweep_coordinator.py:171-204 | any other one-to-one assignment of the same slots has at most twice as many pairs |
| `Matching.HalfIsTight` | backend/coordination/sweep_coordinator.py:171-204 | the factor two is reached by two slots and two segments |
| `Matching.RotationPicks` | backend/coordination/sweep_coordinator.py:172-178 | when every radio reaches everything, slot i takes segment (i + phase) mod N |
| `Matching.RotationCoverage` | backend/coordination/sweep_coordinator.py:172-178 | the segments a phase covers form one arc of the band |
| `Matching.RevisitExact` | backend/coordination/sweep_coordinator.py:172-178 | for M ≤ N universal slots a run of phases visits the whole band exactly when it has at least N − M + 1 phases |
| `Matching.RotationMeetsCeil` | backend/coordination/sweep_coordinator.py:215-224 | ceil(N/M) never exceeds N − M + 1 and reaches it for exactly which M |
| `Matching.EstimateIsExactIff` | backend/coordination/sweep_coordinator.py:215-224 | the estimated number of phases visits the band exactly for one slot or at least N − 1 slots |
| `Matching.NoScheduleBeatsEstimate` | backend/coordination/sweep_coordinator.py:215-224 | the estimate is a lower bound for every schedule with M slots per phase |
| `Sweep.TilesFromEdges` | backend/coordination/sweep_coordinator.py:129-138 | segments cut from equidistant edges tile the band, only the last one may be short |
| `Sweep.TilesUnique` | backend/coordination/sweep_coordinator.py:129-138 | a band is cut into pieces of one width in only one way, so the segments of a plan are determined |
| `Sweep.WidthIsUnique` | backend/coordination/sweep_coordinator.py:112-127 | and so is their width |
| `Sweep.PlanIsMaximalMatching` | backend/coordination/sweep_coordinator.py:158-208 | assignments of a phase come from a matching, each radio covers its segment's centre, and no idle slot could take an uncovered segment |
| `Sweep.PlanIsFirstFit` | backend/coordination/sweep_coordinator.py:171-204 | the same for a plan, with the radio tuning the middle of the segment |
| `Sweep.PickIsAssigned` | backend/coordination/sweep_coordinator.py:199-204 | a tasked slot's assignment names its node, its radio or the node's default one, and its segment, behind those of the tasked slots before it |
| `Sweep.PlanPartitionsBand` | backend/coordination/sweep_coordinator.py:199-208 | assigned and uncovered segments together are exactly the segments of the band, each once |
| `Sweep.PlanCounts` | backend/coordination/sweep_coordinator.py:199-208 | so their numbers add up, and a plan has as many assignments as tasked slots |
| `Sweep.UncoveredInOrder` | backend/coordination/sweep_coordinator.py:206-207 | the uncovered segments are listed in band order |
| `Sweep.PlanIsHalfOptimal` | backend/coordination/sweep_coordinator.py:158-208 | any other feasible assignment of the participating slots has at most twice as many pairs as the plan |
| `Sweep.EstimateSufficesIff` | backend/coordination/sweep_coordinator.py:215-224 | with radios that tune the whole band, the estimated phases bring every segment into some plan exactly for one slot or at least segments − 1 slots |
| `Sweep.EstimateFallsShort` | backend/coordination/sweep_coordinator.py:215-224 | two wide radios and four segments: the fourth is in neither of the two estimated phases |
| `Sweep.GapIsLowerBound` | backend/coordination/sweep_coordinator.py:226-236 | the estimated gap never exceeds the true gap of a phase and equals it exactly when every participating slot is tasked |
| `Sweep.SweepCoordinator.Create` | backend/coordination/sweep_coordinator.py:97-110 | which bands and widths are refused |
| `Sweep.SweepCoordinator.Narrowest` | backend/coordination/sweep_coordinator.py:118-127 | the smallest positive instantaneous bandwidth, if any radio has one |
| `Sweep.SweepCoordinator.ResolveWidth` | backend/coordination/sweep_coordinator.py:112-127 | the pinned width, else the narrowest radio, else 1 MHz |
| `Sweep.SweepCoordinator.BuildSegments` | backend/coordination/sweep_coordinator.py:129-138 | the segments tile the band |
| `Sweep.SweepCoordinator.FlattenFleet` | backend/coordination/sweep_coordinator.py:158-163 | one slot per radio, in fleet order |
| `Sweep.SweepCoordinator.PickSegment` | backend/coordination/sweep_coordinator.py:177-198 | natural segment if it may be had, else the first fallback around the band |
| `Sweep.SweepCoordinator.MatchSlots` | backend/coordination/sweep_coordinator.py:171-204 | the loop computes the matching of the phase |
| `Sweep.SweepCoordinator.CollectUncovered` | backend/coordination/sweep_coordinator.py:206-207 | the segments not covered, in band order |
| `Sweep.SweepCoordinator.PlanPhase` | backend/coordination/sweep_coordinator.py:140-208 | a plan is its phase's matching over the tiling of the band by the pinned, narrowest or default width |
| `Sweep.SweepCoordinator.AdvancePhase` | backend/coordination/sweep_coordinator.py:210-213 | the phase moves on by one |
| `Sweep.SweepCoordinator.EstimateRevisitPhases` | backend/coordination/sweep_coordinator.py:215-224 | the estimate: the number of segments of that width over the number of slots, rounded up; infinite without slots |
| `AutoTasking.RunKeepsInv` | backend/coordination/auto_tasker.py:130-174 | window, last-tune table and counters agree with the ledger of all reservations after every interleaving |
| `AutoTasking.GateIsLedgerRule` | backend/coordination/auto_tasker.py:147-160 | the gate over trimmed and rolled-back state is the rule one would write over the ledger |
| `AutoTasking.BudgetHolds` | backend/coordination/auto_tasker.py:130-174 | every closed minute of every run holds at most the budget of reservations that end in success |
| `AutoTasking.SpacingHolds` | backend/coordination/auto_tasker.py:147-174 | two successful tunes of a node are reserved at least the interval apart in every run |
| `AutoTasking.LedgerIsChronological` | backend/coordination/auto_tasker.py:146-163 | reservations are granted in time order |
| `AutoTasking.ReservedIff` | backend/coordination/auto_tasker.py:140-163 | a request adds exactly its own reservation when the rule grants it and nothing otherwise |
| `AutoTasking.PhaseIff` | backend/coordination/auto_tasker.py:165-213 | a reservation is a success exactly if its tune was sent well, and rolled back exactly if it ended in any other way |
| `AutoTasking.CountersTally` | backend/coordination/auto_tasker.py:148-213 | over any run every counter counts what its name says |
| `AutoTasking.TrimmedWindow` | backend/coordination/auto_tasker.py:130-137 | the trimmed window holds exactly the live reservations of the last minute |
| `AutoTasking.AutoTasker.CheckGlobalBudget` | backend/coordination/auto_tasker.py:130-137 | trims the window and compares it with the budget |
| `AutoTasking.AutoTasker.TryReserve` | backend/coordination/auto_tasker.py:146-163 | the locked reservation is one reserve step |
| `AutoTasking.AutoTasker.ReleaseSlot` | backend/coordination/auto_tasker.py:167-174 | the rollback removes one window entry and the table entry it wrote, if still there |
| `AutoTasking.AutoTasker.FinishTune` | backend/coordination/auto_tasker.py:176-213 | commit or rollback, with the counter of each outcome |
| `Custody.ElectionIgnoresOrder` | backend/coordination/custody_election.py:246-256 | for distinct node ids the decision does not depend on the order of the nodes |
| `Custody.ElectsTheBest` | backend/coordination/custody_election.py:252-256 | the elected nodes are the best positive scores, ties by name, at most k of them |
| `Custody.PrimaryIsBest` | backend/coordination/custody_election.py:246-256 | no primary exactly if no score is positive; else the node of the best score, the first by name among equals |
| `Custody.DecisionIsRanked` | backend/coordination/custody_election.py:246-328 | primary, backups in rank order, and recorded scores, read off a ranking of the nodes |
| `Custody.TaskedFacts` | backend/coordination/custody_election.py:303-313 | the tasked list has no duplicates and at most k + 1 nodes; who is in it and who stands down |
| `Custody.HandoverStarts` | backend/coordination/custody_election.py:282-287 | a change of primary opens a window with deadline now + overlap |
| `Custody.HandoverHasSource` | backend/coordination/custody_election.py:276-301 | a handover comes from the previous primary with a full overlap or from a running handover with its deadline, and else there is none |
| `Custody.OverlapPersists` | backend/coordination/custody_election.py:282-301 | over any run, the window has stayed open with the same deadline exactly when every input was an election before the deadline that left the outgoing node available, did not put it first and opened no new handover |
| `Custody.OverlapSurvivesIff` | backend/coordination/custody_election.py:282-301 | inside the window an available outgoing node stays tasked exactly when it is elected or the election opens no new handover: there was no primary, it is gone, or it leads again |
| `Custody.OverlapEnds` | backend/coordination/custody_election.py:289-313 | at the first election at or past the deadline it is stood down unless elected, whatever that election does to the primary |
| `Custody.SecondHandoverStandsDown` | backend/coordination/custody_election.py:276-313 | three available nodes and two changes of primary: the first outgoing node is stood down long before its deadline |
| `Custody.LedgerBalances` | backend/coordination/custody_election.py:303-313 | over any run, entries into the tasked set equal stand-downs, forgotten tracks and being tasked now |
| `Custody.TracksAreIndependent` | backend/coordination/custody_election.py:243-244 | interleaved elections of different tracks do not disturb each other |
| `Custody.CustodyElector.Create` | backend/coordination/custody_election.py:183-211 | at least one node must be elected |
| `Custody.CustodyElector.KeepTasked` | backend/coordination/custody_election.py:303-306 | first occurrences of non-empty names |
| `Custody.CustodyElector.OpenOrInherit` | backend/coordination/custody_election.py:276-301 | the two handover cases |
| `Custody.CustodyElector.Decide` | backend/coordination/custody_election.py:246-331 | one election computes the decision and whether a handover started |
| `Custody.CustodyElector.RunElection` | backend/coordination/custody_election.py:215-346 | cache, counters and change notification of one election |
| `Custody.CustodyElector.ForgetTrack` | backend/coordination/custody_election.py:348-351 | drops one cached decision |
| `Dedupe.BucketIsRecency` | backend/rns/cmd_handler.py:137-155 | a bucket is exactly the peer's last limit distinct keys by last use; other peers do not enter |
| `Dedupe.SeenIffRecentlyUsed` | backend/rns/cmd_handler.py:148-155 | a key is reported seen exactly when it was used with fewer than limit distinct keys since |
| `Dedupe.AcceptedTwice` | backend/rns/bridge.py:114-129 | a key accepted twice had at least limit distinct other keys of its peer in between |
| `Bridges.CacheIsHistory` | backend/rns/cmd_handler.py:157-199 | the cache is the replay of exactly the messages that passed the other checks |
| `Bridges.DeliveredIff` | backend/rns/cmd_handler.py:137-200 | for either bridge, over any run and on what arrives alone: a duplicate exactly if admissible and an earlier admissible one of its peer has the same uid in the same second with fewer than 4096 other commands between; delivered exactly if admissible and not that |
| `Bridges.NoEarlyReplay` | backend/rns/bridge.py:114-155 | no command of a peer is delivered again before 4096 other commands of that peer passed |
| `Bridges.AttributedTo` | backend/rns/cmd_handler.py:173-188 | whom a message is counted for: on the command bridge the peer the transport names and no other than the envelope names, on the CoT bridge the one the envelope names, if any |
| `Bridges.MismatchIff` | backend/rns/cmd_handler.py:173-188 | an arrival is dropped for its source exactly on the command bridge, when transport and envelope name two peers that differ in more than case |
| `Bridges.FateIs` | backend/rns/cmd_handler.py:167-199 | which arrivals are dropped as garbled, mismatched or our own, which reach the cache, and under which name |
| `Bridges.CountersTally` | backend/rns/cmd_handler.py:167-217 | every counter of both bridges counts what its name says |
| `Bridges.PeerCache.DedupeSeen` | backend/rns/cmd_handler.py:137-155 | the ordered-dictionary lookup is one recorded use |
| `Bridges.CmdBridge.HandleInbound` | backend/rns/cmd_handler.py:157-217 | fate, cache and counters of one command; every envelope lands in exactly one counter |
| `Bridges.CmdBridge.SetAllowlist` | backend/rns/cmd_handler.py:93-94 | allowlist entries in lower case |
| `Bridges.CotBridge.HandleInbound` | backend/rns/bridge.py:131-164 | fate, cache and counters of one beacon |
| `Tracks.CandidatesSandwich` | backend/fusion/track_associator.py:54-62 | all live tracks in the event's bucket are candidates, none further than two buckets away |
| `Tracks.NoDrift` | backend/models/emitter_track.py:95 | no live track is 200 kHz or more from its creation frequency |
| `Tracks.BucketBounds` | backend/fusion/track_associator.py:54-62 | a bucket is 100 kHz wide |
| `Tracks.HearKnownKeepsInv` | backend/fusion/track_manager.py:68-77 | updating a candidate keeps the index right although it is not re-bucketed |
| `Tracks.AddTrackKeepsInv` | backend/fusion/track_manager.py:78-91 | indexing a new track keeps the index right |
| `Tracks.DropAllKeepsInv` | backend/fusion/track_manager.py:158-161 | archiving keeps the index right |
| `Tracks.HeardMeans` | backend/models/emitter_track.py:93-135 | a track fed with events only: count, times, stage, last hundred measurements, nodes, trusted node and origin read off the events |
| `Tracks.MergeAllKeepsIndexed` | backend/fusion/track_manager.py:179-205 | merging duplicates keeps the index right, even when it reuses a track merged away |
| `Tracks.PairIsMerged` | backend/fusion/track_manager.py:176-206 | two tracks are merged exactly if both frequency and last sighting are within the tolerances; the first seen takes over counts, nodes and history of the other |
| `Tracks.LonerStays` | backend/fusion/track_manager.py:182-205 | a track close to no other is left as it is |
| `Tracks.SafeMergeConserves` | backend/fusion/track_manager.py:192-205 | without a hazard, merging conserves the number of observations |
| `Tracks.MergeDuplicatesConservesIff` | backend/fusion/track_manager.py:182-205 | merging conserves observations for all counts of at least one these tracks can have exactly when no pass meets a hazard |
| `Tracks.MiddleOldestMiscounts` | backend/fusion/track_manager.py:186-205 | what three tracks with the middle one the oldest hold after merging |
| `Tracks.InOrderMergeConserves` | backend/fusion/track_manager.py:176-206 | in particular when the dictionary is in first-seen order |
| `MergeCore.MergeConservesIffSafe` | backend/fusion/track_manager.py:182-205 | observations are conserved for all counts, and likewise for all counts of at least one each, exactly when no pass meets two later similar tracks of which the earlier is older |
| `MergeCore.InOrderIsSafe` | backend/fusion/track_manager.py:179-205 | first-seen order is safe |
| `MergeCore.MiddleOldestIsUnsafe` | backend/fusion/track_manager.py:186-205 | three similar tracks with the middle one the oldest: the observations of the third are lost, or those of the first counted twice |
| `TrackRuns.RunKeepsInv` | backend/fusion/track_manager.py:61-205 | the index invariant holds in every state reached by events, ageing, merging, deduplication, deletion and rehydration |
| `TrackRuns.IndexAgreesWithScan` | backend/fusion/track_associator.py:54-62 | in every reachable state candidates agree with a scan from both sides, and no track drifts 200 kHz |
| `TrackRuns.AgeingMeans` | backend/fusion/track_manager.py:143-172 | the ageing pass removes exactly what was not heard for a day, loses after two minutes, coasts stable tracks after thirty seconds, and changes nothing else |
| `TrackRuns.ReachableMergeConservesIff` | backend/fusion/track_manager.py:176-205 | the exact condition in every reachable state |
| `TrackRuns.MergeMiscounts` | backend/fusion/track_manager.py:186-205 | three rehydrated tracks of one observation each end up with two or four |
| `TrackRuns.StagesOnlyRise` | backend/models/emitter_track.py:117-135 | over any run a track's stage only moves up; a lost track stays lost even when heard again |
| `TrackRuns.SurvivorFacts` | backend/fusion/cross_station_dedup.py:111-130 | deduplication leaves name, frequency, stage and first sighting of a survivor alone |
| `TrackRuns.DedupKeepsInv` | backend/fusion/cross_station_dedup.py:127-128 | deduplication keeps the index right although it does not touch it |
| `TrackManagers.EmitterTrack.Update` | backend/models/emitter_track.py:93-115 | all fields after one observation |
| `TrackManagers.EmitterTrack.AdvanceStage` | backend/models/emitter_track.py:117-135 | promotion thresholds |
| `TrackManagers.Associator.IndexTrack` | backend/fusion/track_associator.py:121-125 | adds the name to its bucket once |
| `TrackManagers.Associator.RemoveTrack` | backend/fusion/track_associator.py:127-131 | removes it from the bucket of its current frequency, if there |
| `TrackManagers.Associator.CandidateTracks` | backend/fusion/track_associator.py:54-62 | exactly the live entries of three buckets |
| `TrackManagers.Associator.Associate` | backend/fusion/track_associator.py:30-50 | a best candidate, if it reaches the threshold |
| `TrackManagers.TrackManager.Ingest` | backend/fusion/track_manager.py:61-93 | an event joins a best candidate or starts a track |
| `TrackManagers.TrackManager.Rehydrate` | backend/main.py:777-778 | a persisted track is added and indexed |
| `TrackManagers.TrackManager.Delete` | backend/api/routes/tracks.py:47-53 | a live track leaves dictionary and index, a missing one is reported |
| `TrackManagers.TrackManager.AgeOne` | backend/fusion/track_manager.py:147-156 | stage changes by age |
| `TrackManagers.TrackManager.AgeTracks` | backend/fusion/track_manager.py:143-161 | the ageing pass, two loops over the live objects; archiving loses no track object |
| `TrackManagers.TrackManager.MergeOne` | backend/fusion/track_manager.py:187-205 | one comparison of the outer track, live or gone, with a later one |
| `TrackManagers.TrackManager.MergeDuplicateTracks` | backend/fusion/track_manager.py:176-206 | the nested loops over live objects compute the merge of the value model |
| `CrossStation.PassFacts` | backend/fusion/cross_station_dedup.py:111-130 | a pass splits the tracks into groups; each survivor is the earliest of its group, absorbed only other origins, and sums up its group |
| `CrossStation.PassIsByAge` | backend/fusion/cross_station_dedup.py:116-118 | the pass goes by first sighting, and by dictionary order among equals |
| `CrossStation.AbsorbTurn` | backend/fusion/cross_station_dedup.py:120-132 | a track is absorbed at its turn exactly if it comes from another station and is alike to what the kept track has become |
| `CrossStation.SweepTurn` | backend/fusion/cross_station_dedup.py:119-134 | what is left goes on to the next turn, the earliest first |
| `CrossStation.DedupConserves` | backend/fusion/cross_station_dedup.py:92-109 | survivors together have the observation total, nodes, best confidence and newest sighting of all tracks |
| `CrossStation.GroupsKeepFix` | backend/fusion/cross_station_dedup.py:100-105 | a survivor has the fix of the first member that has one |
| `CrossStation.SummaryMeans` | backend/fusion/cross_station_dedup.py:97-108 | the summary's best confidence and newest sighting are attained and never exceeded |
| `StationDedup.DictionaryHoldsSurvivors` | backend/fusion/cross_station_dedup.py:127-128 | the dictionary keeps exactly the survivors |
| `StationDedup.PassConserves` | backend/fusion/cross_station_dedup.py:92-138 | the pass conserves totals over the dictionary |
| `StationDedup.CrossStationDedup.AbsorbLater` | backend/fusion/cross_station_dedup.py:121-131 | the inner loop with its in-place removals |
| `StationDedup.CrossStationDedup.Run` | backend/fusion/cross_station_dedup.py:111-138 | one pass over live objects, and the merge count is the number of tracks gone |
| `Approvals.EvictFailsIff` | backend/operator/approvals.py:141-147 | making room fails exactly when there is no room at all |
| `Approvals.EnqueueFacts` | backend/operator/approvals.py:128-152 | an enqueue drops at most the oldest waiting item, only when the deque is full from it on, and changes nothing else |
| `Approvals.DroppedIsOldest` | backend/operator/approvals.py:134-148 | nothing that waits is older than the item dropped |
| `Approvals.DropsTooEarlyIff` | backend/operator/approvals.py:129-150 | a waiting item is dropped below capacity exactly when a decided one sits behind the oldest waiting one in a full deque |
| `Approvals.DropsTooEarly` | backend/operator/approvals.py:129-150 | such a queue with room for two |
| `Approvals.ExpireFacts` | backend/operator/approvals.py:203-216 | exactly the waiting items older than the limit expire |
| `Approvals.ListingIs` | backend/operator/approvals.py:161-166 | the list holds what waits and is younger than the limit, in queue order |
| `Approvals.ListedUntilExpired` | backend/operator/approvals.py:161-166 | after an expiry pass the list leaves out only what is exactly as old as the limit |
| `Approvals.RunKeepsInv` | backend/operator/approvals.py:113-221 | in every interleaving the deque is the end of the enqueue order, holds all that waits, at most the maximum, and every call is accounted for |
| `Approvals.DecidedIsFinal` | backend/operator/approvals.py:168-221 | a decided item never changes again |
| `Approvals.OutcomeIff` | backend/operator/approvals.py:113-221 | over any run an item is approved or rejected exactly if that was done while it waited, expired exactly if a pass found it too old, dropped exactly if an enqueue found the queue full from it on, the oldest waiting |
| `Approvals.OutcomeIsRecorded` | backend/operator/approvals.py:143-215 | who decided, when and why is written with the decision and stays |
| `Approvals.CallsAreTrue` | backend/operator/approvals.py:103-111 | at any time the hook was told at most once and the true outcome; the callback ran at most once, for approved items only |
| `Approvals.OnlyApprovedAreCalled` | backend/operator/approvals.py:178-185 | the approved callback runs only for items an operator approved while they waited |
| `Approvals.AllToldAtRest` | backend/operator/approvals.py:103-111 | with no call outstanding, exactly once for every decided item |
| `Approvals.ApprovalQueue.EnqueueItem` | backend/operator/approvals.py:113-152 | the locked section of an enqueue |
| `Approvals.ApprovalQueue.CompactHead` | backend/operator/approvals.py:134-140 | removes decided items from the head |
| `Approvals.ApprovalQueue.MakeRoom` | backend/operator/approvals.py:141-150 | drops from the head until there is room |
| `Approvals.ApprovalQueue.ApproveItem` | backend/operator/approvals.py:168-177 | only a waiting item is approved |
| `Approvals.ApprovalQueue.RejectItem` | backend/operator/approvals.py:188-197 | only a waiting item is rejected |
| `Approvals.ApprovalQueue.ExpireStale` | backend/operator/approvals.py:203-221 | the expiry loop |
| `Approvals.ApprovalQueue.ListPending` | backend/operator/approvals.py:161-166 | the operator's list |
| `Base32.RoundTrip` | backend/rns/token.py:56-76 | every byte string survives encoding and decoding, and its length follows from the text |
| `Base32.EncodedSpells` | backend/rns/token.py:56-64 | each character of the text, from the alphabet and the number the bytes make |
| `Base32.SymbolMeans` | backend/rns/token.py:41-45 | what each character means, as a capital and as one of the substitutes |
| `Base32.NoOtherSymbol` | backend/rns/token.py:67-76 | other characters than letters and digits are errors |
| `Base32.DecodesIff` | backend/rns/token.py:67-76 | decoding gives a byte string exactly when the text reads as its number |
| `Base32.OnlyCanonMatters` | backend/rns/token.py:48-49 | case, separators and substitutions change neither bytes nor error |
| `Base32.SeparatorInside` | backend/rns/token.py:70-72 | a separator may be put anywhere inside the text |
| `Base32.SeparatorBeforeIff` | backend/rns/token.py:68-72 | before the text exactly when only blanks lie between |
| `Base32.SeparatorAfterIff` | backend/rns/token.py:68-72 | likewise behind it |
| `Base32.FirstTrialDecides` | backend/rns/token.py:172-186 | the second and third trial length never help |
| `Base32.ShortTexts` | backend/rns/token.py:170-186 | what happens to texts too short for a token |
| `Base32.ImportRecoversIff` | backend/rns/token.py:170-190 | a retyped token is recovered exactly when the added characters leave the computed length alone; else its bytes come out behind a zero version byte |
| `Base32.DashesSpoilImport` | backend/rns/token.py:170-186 | with two dashes behind it, a token of any content no longer comes out as its bytes, although decoding at its length gives them |
| `Base32.EncodeBytes` | backend/rns/token.py:56-64 | the encoding loop |
| `Base32.DecodeText` | backend/rns/token.py:67-76 | the decoding loop, with both errors |
| `Base32.PickBlob` | backend/rns/token.py:172-186 | the trial loop |
| `Schema.InterfaceIdempotent` | backend/rns/schema.py:223-255 | validating a validated entry changes nothing |
| `Schema.ValidatedIsEquipped` | backend/rns/schema.py:208-255 | an accepted entry has a name, a known type and what that type needs, within range |
| `Schema.EquippedIsValid` | backend/rns/schema.py:208-255 | name, known type and what the type needs are enough, and the defaults that complete them |
| `Schema.WhyRejected` | backend/rns/schema.py:228-240 | a type without a hash crashes, anything else is a schema error |
| `Schema.ValidationIdempotent` | backend/rns/schema.py:258-282 | validating a validated configuration changes nothing |
| `Schema.NamesAreDistinct` | backend/rns/schema.py:266-276 | no two entries share an id or a name |
| `Schema.AcceptedIff` | backend/rns/schema.py:265-276 | a list of entries is accepted exactly if each is, ids can be hashed, and ids and names are distinct |
| `Schema.EqualIdsClash` | backend/rns/schema.py:266-271 | ids that compare equal clash whatever their type |
| `Schema.ConfigDefaults` | backend/rns/schema.py:277-282 | what is filled in where the configuration says nothing |
| `Schema.FieldsAreFlat` | backend/rns/schema.py:208-220 | no field of a validated entry but its id can hold an object |
| `Schema.ValidatedIsSound` | backend/rns/schema.py:258-282 | what callers rely on afterwards |
| `Schema.CheckFields` | backend/rns/schema.py:208-220 | required fields and validators |
| `Schema.CheckInterface` | backend/rns/schema.py:223-255 | one entry, with schema errors and the unhashable-type crash |
| `Schema.CheckEntries` | backend/rns/schema.py:265-276 | the loop that rejects duplicate ids and names |
| `Schema.CheckConfig` | backend/rns/schema.py:258-282 | the whole configuration |
| `Replication.PathInjective` | backend/rns/schema.py:294 | a path says which field of which entry it stands for |
| `Replication.PathsFacts` | backend/rns/schema.py:285-295 | the paths are those of all device-local fields present, each once |
| `Replication.ExportedField` | backend/rns/token.py:88-97 | each exported field: a marker with its path if it belongs to the device, else itself |
| `Replication.AppliedField` | backend/rns/token.py:100-115 | each filled-in field: the value of its path if it is a marker and supplied, else itself |
| `Replication.NothingLocalLeaves` | backend/rns/token.py:88-97 | entries that differ only in device-local values are exported alike |
| `Replication.MissingExactly` | backend/rns/token.py:100-115 | for every value map the missing set is the paths minus the supplied ones |
| `Replication.RoundTrip` | backend/rns/token.py:88-115 | replacing and filling in the originals gives the entries back with nothing missing |
| `Replication.FillTwice` | backend/rns/token.py:100-115 | values may be supplied in two goes |
| `Replication.ReplicationRoundTrip` | backend/rns/token.py:118-228 | export and import with the original values give back interfaces and shared settings, nothing missing |
| `Replication.CopyCarries` | backend/rns/token.py:118-160 | what else the copy carries: label, keys and time of export |
| `Replication.ImportRejects` | backend/rns/token.py:206-222 | what a payload without a list of interfaces leads to |
| `Replication.ReplicationMissing` | backend/rns/token.py:118-228 | whatever is supplied, import reports exactly the unsupplied paths |
| `Replication.PlaceholderPaths` | backend/rns/schema.py:285-295 | the loop over entries and fields |
| `Replication.ReplacePlaceholders` | backend/rns/token.py:88-97 | the loop that writes markers |
| `Replication.ApplyValues` | backend/rns/token.py:100-115 | the loop that fills in values, with its crashes |
| `DspBlocks.HealthyIff` | core/src/dsp/block.h:27-63 | after any calls with all brackets closed, the worker is alive exactly when the block runs, unless a stop hit it inside a bracket |
| `DspBlocks.RunningIs` | core/src/dsp/block.h:27-63 | starts and stops alone decide whether a block runs, brackets alone how deep it is suspended |
| `DspBlocks.BracketsRestore` | core/src/dsp/block.h:47-63 | balanced nested brackets leave a sound block as it was |
| `DspBlocks.StopInsideBracket` | core/src/dsp/block.h:37-54 | the shortest call sequence that revives a stopped block |
| `DspBlocks.RewireFacts` | core/src/dsp/processor.h:57-65 | swapping the input swaps the registered input too and disturbs nothing else |
| `DspBlocks.Processor.StartBlock` | core/src/dsp/block.h:27-35 | start |
| `DspBlocks.Processor.StopBlock` | core/src/dsp/block.h:37-45 | stop |
| `DspBlocks.Processor.TempStartBlock` | core/src/dsp/block.h:47-54 | closing a bracket |
| `DspBlocks.Processor.TempStopBlock` | core/src/dsp/block.h:56-63 | opening a bracket |
| `DspBlocks.Processor.SetInput` | core/src/dsp/processor.h:57-65 | the bracketed swap |
| `DspChains.SourceIsNearestIff` | core/src/dsp/chain.h:165-170 | the block the code picks is the nearest enabled one exactly when at most one is enabled |
| `DspChains.EnableWiredIff` | core/src/dsp/chain.h:62-90 | enabling keeps the wiring exactly when at most one block before is enabled |
| `DspChains.DisableWiredIff` | core/src/dsp/chain.h:93-118 | disabling likewise |
| `DspChains.SetInputKeepsWired` | core/src/dsp/chain.h:20-30 | changing the input always keeps it |
| `DspChains.AddWiredIff` | core/src/dsp/chain.h:32-44 | adding a block, enabled or not |
| `DspChains.RemoveWiredIff` | core/src/dsp/chain.h:47-59 | removing a block |
| `DspRuns.EnableAllWiredIff` | core/src/dsp/chain.h:131-135 | enabling all keeps it exactly when everything from the third block on is enabled already |
| `DspRuns.DisableAllKeepsWired` | core/src/dsp/chain.h:138-142 | disabling all always keeps it |
| `DspRuns.StepWiredIff` | core/src/dsp/chain.h:20-160 | every operation keeps the wiring exactly when it is safe |
| `DspRuns.SafeRunsStayWired` | core/src/dsp/chain.h:20-160 | the chain is wired throughout a run exactly when every operation is safe where it is taken |
| `DspRuns.BlocksRunOnDuty` | core/src/dsp/chain.h:32-160 | through any operations a block runs exactly when the chain runs and it is enabled |
| `DspRuns.ChainComposes` | core/src/dsp/chain.h:72-86 | a wired chain computes the composition of its enabled blocks |
| `DspRuns.ThirdSkipsSecond` | core/src/dsp/chain.h:165-170 | three blocks enabled in order: the third reads the first |
| `DspEffects.EnableMeans` | core/src/dsp/chain.h:62-90 | what the enabled block reads, who reads it, and that no one else is touched, wired or not |
| `DspEffects.DisableMeans` | core/src/dsp/chain.h:93-118 | what reaches the place is handed on |
| `DspEffects.AddMeans` | core/src/dsp/chain.h:32-44 | a block is added behind all others |
| `DspEffects.RemoveMeans` | core/src/dsp/chain.h:47-59 | a block is disabled and taken out |
| `DspEffects.SetInputMeans` | core/src/dsp/chain.h:20-30 | the first enabled block or the output gets the new input |
| `DspEffects.SwitchesAfter` | core/src/dsp/chain.h:20-160 | what is linked, switched on and running after any operation |
| `DspChainObjects.BlockChain.EnableBlock` | core/src/dsp/chain.h:62-90 | the rewiring of live processors, the exception and the callback |
| `DspChainObjects.BlockChain.DisableBlock` | core/src/dsp/chain.h:93-118 | likewise |
| `DspChainObjects.BlockChain.AddBlock` | core/src/dsp/chain.h:32-44 | likewise |
| `DspChainObjects.BlockChain.RemoveBlock` | core/src/dsp/chain.h:47-59 | likewise |
| `DspChainObjects.BlockChain.SetChainInput` | core/src/dsp/chain.h:20-30 | the first enabled block is rewired, or the output moves |
| `DspChainObjects.BlockChain.EnableAllBlocks` | core/src/dsp/chain.h:131-135 | the loop over all links |
| `DspChainObjects.BlockChain.DisableAllBlocks` | core/src/dsp/chain.h:138-142 | the loop over all links |
| `DspChainObjects.BlockChain.BlockBefore` | core/src/dsp/chain.h:165-170 | the first enabled block before the given one |
| `DspChainObjects.BlockChain.BlockAfter` | core/src/dsp/chain.h:172-182 | the first enabled block after it |
| `DspChainObjects.BlockChain.StartAll` | core/src/dsp/chain.h:144-151 | starts the enabled blocks |
| `DspChainObjects.BlockChain.StopAll` | core/src/dsp/chain.h:153-160 | stops the enabled blocks |
| `PolySearch.WheelFacts` | core/libcorrect/tools/find_conv_optim_poly.c:146-148 | 2^(order−2) coefficients, all of 16 bits |
| `PolySearch.BumpIsSuccessor` | core/libcorrect/tools/find_conv_optim_poly.c:167-176 | adding two with carry leads to the next tuple |
| `PolySearch.CoeffAt` | core/libcorrect/tools/find_conv_optim_poly.c:160-177 | coefficient j of entry i is start + 2·((i / p^j) mod p) |
| `PolySearch.CandidateIff` | core/libcorrect/tools/find_conv_optim_poly.c:146-148 | candidates are exactly the odd numbers with the top bit set |
| `PolySearch.ListedExactlyOnce` | core/libcorrect/tools/find_conv_optim_poly.c:149-177 | a tuple is listed exactly once if it is a candidate, and not at all otherwise |
| `PolySearch.Advance` | core/libcorrect/tools/find_conv_optim_poly.c:167-176 | the carry loop in place |
| `PolySearch.Enumerate` | core/libcorrect/tools/find_conv_optim_poly.c:149-177 | the list of all tuples |
| `PolySearch.EndsWithTwenty` | core/libcorrect/tools/find_conv_optim_poly.c:180-242 | the tournament ends with exactly 20 when it starts above, and else changes nothing |
| `PolySearch.RoundHalves` | core/libcorrect/tools/find_conv_optim_poly.c:213-241 | a round halves the field down to 20 and doubles the message up to 50 million bytes |
| `PolySearch.RoundIsFair` | core/libcorrect/tools/find_conv_optim_poly.c:124-134 | no polynomial kept costs more than one given up |
| `PolySearch.SteadyCostsFindTheBest` | core/libcorrect/tools/find_conv_optim_poly.c:213-241 | when all rounds measure alike the winners are the 20 cheapest of all |
| `PolySearch.MessageGrows` | core/libcorrect/tools/find_conv_optim_poly.c:227-234 | the message never shrinks and never passes its limit |
| `PolySearch.PlayAll` | core/libcorrect/tools/find_conv_optim_poly.c:180-242 | the halving loop |
| `PolySearch.Blocks` | core/libcorrect/tools/find_conv_optim_poly.c:181-194 | the blocks add up to the message |
| `Annealing.ShufflePermutes` | core/libcorrect/tools/find_conv_optim_poly_annealing.c:36-43 | whatever is drawn, the shuffle is a permutation |
| `Annealing.PairStays` | core/libcorrect/tools/find_conv_optim_poly_annealing.c:36-43 | two entries are never exchanged |
| `Annealing.Shuffle` | core/libcorrect/tools/find_conv_optim_poly_annealing.c:36-43 | the loop in place |
| `Annealing.RandGeo` | core/libcorrect/tools/find_conv_optim_poly_annealing.c:45-55 | between 1 and the maximum, stopped by the first draw that says so |
| `Annealing.ToggleInNumbers` | core/libcorrect/tools/find_conv_optim_poly_annealing.c:71 | a flip adds or takes away one power of two within the width |
| `Annealing.NeighbourDiffers` | core/libcorrect/tools/find_conv_optim_poly_annealing.c:65-72 | a neighbour differs in exactly the flipped number of bits, never in an edge bit |
| `Annealing.NextNeighbor` | core/libcorrect/tools/find_conv_optim_poly_annealing.c:57-73 | the same for the buffer the method writes |
| `Bpsk.EncodeBpsk` | core/libcorrect/util/error-sim.c:41-50 | one voltage per bit |
| `Bpsk.Byte2Bit` | core/libcorrect/util/error-sim.c:52-61 | one full soft byte per bit |
| `Bpsk.HighestFirst` | core/libcorrect/util/error-sim.c:41-75 | bits are taken highest first |
| `Bpsk.DecodeBpsk` | core/libcorrect/util/error-sim.c:63-75 | bits added to the buffer |
| `Bpsk.DecodeBpskSoft` | core/libcorrect/util/error-sim.c:77-88 | clamped soft decisions |
| `Bpsk.GatherSets` | core/libcorrect/util/error-sim.c:63-75 | decoding adds the bits it hears to those already set |
| `Bpsk.DecodeUndoesByte2Bit` | core/libcorrect/util/error-sim.c:52-75 | into a zeroed buffer, decoding undoes unpacking for every bit count |
| `Bpsk.WholeBytesReturn` | core/libcorrect/util/error-sim.c:52-75 | every whole byte comes back |
| `Bpsk.NoiseFreeSoftBits` | core/libcorrect/util/error-sim.c:77-88 | without noise soft decisions are the plain bits at any voltage but zero |
| `Bpsk.NoiseFreeRoundTrip` | core/libcorrect/util/error-sim.c:41-88 | encode, receive without noise, decode gives the message back |
| `Bpsk.NoisyBitIff` | core/libcorrect/util/error-sim.c:63-88 | how much noise a set and a clear bit stand, exactly |

## Left out

- AutoTasking.AutoTasker.TryReserve: reading the clock and reserving are one step, and runs assume a clock that never goes back, which the source does not enforce.
- AutoTasking.AutoTasker.FinishTune: network calls and the already-tuned test are outcomes chosen from outside; a cancelled tune that neither commits nor rolls back is not modelled.
- Custody.CustodyElector.Decide: node scores are arbitrary real numbers; gates, score components, the reason text and the callback's own effects are not modelled.
- Bridges.CmdBridge.HandleInbound: lower case is ASCII only; envelope decoding is an option value; publishing is not modelled.
- TrackManagers.TrackManager.Ingest: scores are an arbitrary function; confidence updates, proximity fixes and callbacks are not modelled; track ids are fresh.
- TrackManagers.EmitterTrack.Update: fields are one record and detecting nodes a set, so their order is not modelled.
- TrackManagers.TrackManager.AgeTracks: the custody cache's forget call is part of module Custody, not of this pass.
- StationDedup.CrossStationDedup.Run: likeness is an arbitrary relation, so frequency, time, distance and modulation tests are not modelled; the working list holds names instead of objects.
- Approvals.ApprovalQueue.EnqueueItem: items are values in the dictionary, so the object handed to callbacks is not aliased; one clock reading serves a locked section; track and report contents are not modelled; ids are fresh; hooks are assumed to be installed.
- Base32.DecodeText: lower case is ASCII only, so the few non-ASCII letters that fold to ASCII are not modelled.
- Schema.CheckConfig: keys have no order, so which of several errors comes first and the wording of errors are not modelled; minted ids are parameters.
- Replication.ReplicationRoundTrip: encryption, key derivation, compression and JSON text are taken to be undone by their inverses.
- DspBlocks.Processor.SetInput: fields are one record; stream stop flags, the mutex and the worker's own loop are not modelled.
- DspChainObjects.BlockChain.EnableBlock: processors are looked up by a name that stands for their address.
- PolySearch.PlayAll: equal costs are ordered stably where the library sort leaves it open; measuring, threads and noise are the cost function.
- PolySearch.Enumerate: the number of tuples is unbounded where the source uses the machine's size type.
- Annealing.NextNeighbor: words are numbers below a power of two and a flip is defined on their binary digits; draws are parameters.
- Bpsk.DecodeBpskSoft: voltages are real numbers, so rounding is not modelled.
- Floating-point geometry, triangulation, trust and confidence formulas: their provable claims are only clamps.
- Sockets, HTTP, databases, files, XML, logging, metrics, UI, drivers and detectors: input and output around the logic modelled here.

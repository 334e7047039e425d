# A verified model of the LTE test bench's measurement core

The test bench measures two LTE uplinks at once. A sender on each path plans and fragments video frames and numbered
datagrams; a test node counts what arrives; a controller joins both sides, runs one measurement after the other inside
a leased reservation, and repeats measurements in batch campaigns that must survive loss, duplication, reordering,
cancellation and restarts. This project models that core in Dafny and proves what its counters, state machines and
codecs promise.

Each source file that works by updating objects in place is modelled by classes and loops of the same shape
(`VideoPath`, `UdpRecord`, `TestNode`, `RenewalMonitor`, `Run`, `TestBatch`, `Controller`, `Api`); every such method is
proved against a function of the old state, and the theorems are proved about that function. Pure code is modelled by
functions. The network, the router, the clock, cancellation, the outcome of a stage and crashes are free choices, so
every theorem holds for all of them.

| file | part of the system |
|---|---|
| `SetFacts.dfy` | option values, integer intervals, cardinalities |
| `VideoReceiver.dfy` | per-path frame reassembly of the test node, in place |
| `VideoReassembly.dfy` | what a path's counters say about the history of datagrams |
| `VideoSummary.dfy` | header parsing, live, full and final summaries, the dual-path comparison |
| `VideoSender.dfy` | frame size schedule and fragment loop of the sender |
| `VideoJoin.dfy` | the controller's joined rows, buckets and outages; end-to-end conservation |
| `UdpReceiver.dfy` | numbered datagrams: streaming totals and the account per second |
| `Reservations.dfy` | reservation table, renewal monitor, the lease |
| `RunStateMachine.dfy`, `RunProgram.dfy`, `RunLooks.dfy` | run states; what the engine does for a plan; how soon it notices a cancellation |
| `RunEngine.dfy` | the life of one run, in place |
| `PathStability.dfy` | the wait for registered LTE paths |
| `RouterOsApi.dfy` | RouterOS API words, sentences and replies over a byte stream |
| `Batch.dfy`, `BatchRequests.dfy` | one campaign as a state machine; what becomes of a request |
| `BatchRecovery.dfy`, `BatchVerdicts.dfy` | what a restart leaves; verdicts and failures in a row |
| `BatchRunner.dfy`, `BatchController.dfy` | the worker of a campaign, all campaigns together |

`dafny verify dfyconfig.toml` checks the whole project.

## What the proofs found out

The model keeps the code as it is. Where a promise fails, a theorem says exactly when it holds, and unless that
condition names one at once, a lemma gives an input on which it fails.

- A UDP record's `missing_datagrams` falls short of the true number of holes by three distances: of the first arrival
  from the least number, of the stored maximum from the greatest, and of the datagrams without a number that came in
  between. It is exact if and only if all three are zero or nothing is missing (`UdpReceiver.LossEstimate`), and the
  loss percentage if in addition every datagram had a number (`UdpReceiver.LossPercentIsExact`). Number 5 and then 1:
  three datagrams in between are missing, and the record says that none is (`UdpReceiver.DescentHidesLoss`).
- The stored maximum is the greatest number seen if and only if that is not zero or zero was the last new number
  (`UdpReceiver.GreatestTells`): a stored 0 reads as absent (`UdpReceiver.NegativeNumbersLoseTheMaximum`).
- The out-of-order counts of the seconds exceed the record's by exactly the late duplicates
  (`UdpReceiver.SecondsRefineTotals`).
- When the datagrams of a frame announce different fragment counts, some order of arrival completes it if and only if,
  for an announced count, the datagrams that announce no more hold all its fragments, and every order does if and only
  if the fragments below the greatest count all arrived (`VideoReassembly.OrderMattersIff`; two datagrams that differ
  in order only: `VideoReassembly.MixedCountsDependOnOrder`).
- A frame all of whose fragments arrived is not counted complete exactly if it was given up before: as the lowest
  waiting frame at an overflow, or waiting at a final summary (`VideoReassembly.CompleteIffNeverGivenUp`).
- The comparison of two paths subtracts the send stamps of two senders. If one sender's clock is ahead, every frame
  stamped on both sides moves by the skew, and the winners stay the same if and only if every such frame was won by
  more (`VideoSummary.SkewDecidesIff`); a winner that changes: `VideoSummary.SkewTurnsWinner`.
- The figure for frames lost on both paths agrees with the buckets if and only if the frames complete on either path
  lie among those sent or cover all of them (`VideoJoin.LostOnBothAgrees`); it does if the receiver sees only what this
  sender sent (`VideoJoin.BothPathsAgree`). If the one complete frame is not the one sent, the figure is 0, and the
  bucket says 1 (`VideoJoin.ForeignFrameHidesLoss`).
- A cancel request on a run's row alone is honoured if and only if a check comes before the next transition and before
  anything raises (`RunProgram.HonouredIff`, `RunProgram.HeardIff`). In five states - created, warming up, cooling down,
  analysing, generating the report - none does, so it never is (`RunProgram.NeverHeard`); `RunEngine.AskOnce` is a whole
  run with one such request, which completes.
- A cancel event or a lost lease stops the run at the next look for it, so that at most the action under way is still
  carried out (`RunEngine.Run.ExecuteRun`, `RunLooks.CancelNoticed`, `RunLooks.LossNoticed`). Of a lease that is lost
  before the first measurement is over it can be one action more, for after that one the engine does not look at the
  lease (`RunLooks.LossTakesTwo`). A cancellation after the last look is not noticed (`RunProgram.CancelledIff`).
- A restart target is a legal transition exactly for the states that need restoration
  (`RunStateMachine.RestartIsLegalIff`); recovery of all runs stops with an error at the first other run that is not
  over (`RunStateMachine.RecoverIncompleteRuns`).
- `docs/overnight-batches.md` speaks of invalid attempts as runs that are not eligible. An attempt stopped by a changed
  test-node version is invalid, too, but no counter counts it, and neither does any count a cancelled attempt
  (`Batch.EveryCampaign`).
- A cancel request that a batch's row has accepted is honoured if and only if the worker hears it before anything else
  stops it or raises (`BatchRequests.CancelHonouredIff`). After a run that means: the version has not changed, the
  target is still missed, and attempts are left, for the worker looks at these first (`BatchRunner.TestBatch.AfterRun`;
  a batch that is completed instead: `BatchRequests.CancelLostToTarget`).
- A batch is left active without a worker if and only if a request came before the worker's first look at the row, or
  a cancel request after the worker had paused the batch and before it was gone (`BatchRequests.WorkerStrandsIff`;
  both happen: `BatchController.EarlyPauseStrands`, `BatchController.LateCancelStrands`). Until that batch is cancelled
  or the process restarts no batch can be started (`BatchController.StrandedBlocksAll`).
- A pause requested during the run that meets the target leaves the batch paused with its target met; resumed, it is
  completed without another attempt (`BatchRequests.PauseDelaysTarget`).
- The number of failures in a row is what the attempts tell, over every campaign, unless a restart closed the run of a
  batch to be cancelled without a verdict: then it is one less (`BatchVerdicts.FailuresInARow`).
- The number of failures in a row is not reset when a batch is resumed: a batch paused for it never starts another
  attempt (`Batch.BlockedForever`).
- Restart recovery judges a completed run without the check of the test-node version that the worker makes. The
  versions stay together exactly if it does not take over a valid run of another version
  (`BatchRecovery.RestartKeepsVersionsIff`), and it can (`BatchRecovery.RecoveryCanMixVersions`).
- Recovery does not close every attempt. Over every campaign, the attempts open after a restart are exactly those that
  a worker left open by an error, or that a restart met before they had a run, and that no restart of a batch to be
  cancelled has closed since (`BatchRecovery.OpenIff`). One with a run is left open if and only if a worker raised in
  the middle of a run (`BatchRecovery.OpenRunIff`); recovery passes over such a batch
  (`BatchRecovery.ReconciledHasNoOpenRun`).
- The lease is held, unless someone releases it, as long as the pause between renewals and twice the longest call fit
  into it (`Reservations.LeaseIsHeld`), and the bound is sharp (`Reservations.LateLeaseCanBeLost`).

## Model

| member | source | states |
|---|---|---|
| `VideoReassembly.Reassembly` | deploy/stockbot-fileserver.py:381-433 | for every history of datagrams: no frame is partial if and only if never more frames waited than the cap; and then every counter, active frame, fragment set, arrival and send time is the one the history dictates |
| `VideoReassembly.CompleteIffAllArrived` | deploy/stockbot-fileserver.py:381-433 | with one fragment count per frame, the frames counted complete are exactly those all of whose fragments arrived, the others seen are exactly the active ones |
| `VideoReassembly.OrderDoesNotMatter` | deploy/stockbot-fileserver.py:405-433 | two histories with the same fragments, in any order and with any repetition, complete the same frames |
| `VideoReassembly.OrderMattersIff` | deploy/stockbot-fileserver.py:405-433 | whatever counts the datagrams announce, with room for every frame: which frames some order completes, which every order does, and so exactly which depend on the order |
| `VideoReassembly.UniformCovered` | deploy/stockbot-fileserver.py:419-432 | with one count per frame, a frame that had all its fragments at some moment has them at the end, and conversely |
| `VideoReassembly.EveryRunIsSound` | deploy/stockbot-fileserver.py:311-334 | with evictions and final summaries at any point: the balance holds, frames seen are the ids that arrived, and no frame is complete without all its fragments |
| `VideoReassembly.LedgerTells` | deploy/stockbot-fileserver.py:311-433 | without any assumption of room: the path waits for exactly the frames of a ledger told from the history alone, with exactly the fragments that arrived; the complete frames are those covered and not lost, with the arrival and send times, and the spans from first to last arrival, of the moment they were covered; a datagram and its bytes count exactly if its frame was neither covered nor lost before |
| `VideoReassembly.LostIff` | deploy/stockbot-fileserver.py:329-334 | a frame is lost exactly if at some event it was the lowest of too many waiting frames, or waiting at a final summary |
| `VideoReassembly.CompleteIffNeverGivenUp` | deploy/stockbot-fileserver.py:311-433 | with one count per frame, a frame all of whose fragments arrived is counted complete if and only if it was never given up; the partial count is the number of frames lost |
| `VideoReassembly.CompleteOnlyIfAllArrived` | deploy/stockbot-fileserver.py:311-433 | even after evictions and summaries, a frame counted complete has every fragment |
| `VideoReassembly.OverflowEvicts` | deploy/stockbot-fileserver.py:329-334 | the first datagram for which there is no room costs exactly the lowest waiting frame, which is counted partial and never complete |
| `VideoReassembly.RunBalanced` | deploy/stockbot-fileserver.py:311-334 | after every history: seen = finalized + active, the two disjoint, complete + partial = finalized, one span and one first arrival per complete frame, active frames lack a fragment, and at most cap frames are active |
| `VideoReceiver.AcceptKeepsBalance` | deploy/stockbot-fileserver.py:381-433 | every datagram keeps that balance |
| `VideoReceiver.DrainKeepsBalance` | deploy/stockbot-fileserver.py:454-459 | the final summary keeps it, and finalising twice is finalising once |
| `VideoReceiver.DrainStep` | deploy/stockbot-fileserver.py:454-459 | the order in which the final summary takes the active frames does not matter |
| `VideoReceiver.AcceptOnce` | deploy/stockbot-fileserver.py:419-433 | one datagram closes at most one frame: its own if whole, else the lowest id if there are too many |
| `VideoReceiver.AcceptFrames` | deploy/stockbot-fileserver.py:405-433 | a datagram changes no active frame but its own, which stays active only while a fragment is missing |
| `VideoReceiver.EvictionIsPartial` | deploy/stockbot-fileserver.py:329-334 | eviction never completes a frame |
| `VideoReceiver.VideoPath.FinalizeFrame` | deploy/stockbot-fileserver.py:311-326 | the statistics after one frame is finalised, in place; a second time changes nothing |
| `VideoReceiver.VideoPath.Prune` | deploy/stockbot-fileserver.py:329-334 | the loop evicts lowest ids down to the cap |
| `VideoReceiver.VideoPath.Note` | deploy/stockbot-fileserver.py:405-430 | traffic counters and the frame's fragment, times and count after a datagram |
| `VideoReceiver.VideoPath.Record` | deploy/stockbot-fileserver.py:381-433 | the whole new state of a path after a datagram, the one the theorems speak of |
| `VideoReceiver.VideoPath.FinalizeAll` | deploy/stockbot-fileserver.py:454-459 | the finalising loop, whatever order it takes the frames in |
| `VideoSummary.RecordDatagram` | deploy/stockbot-fileserver.py:381-404 | a datagram counts exactly if its header converts and its run is authorised; otherwise the path is untouched |
| `VideoSummary.AcceptedHeaders` | deploy/stockbot-fileserver.py:388-397 | a header is accepted if and only if it describes a well-formed fragment, and then as that fragment |
| `VideoSummary.CountedIff` | deploy/stockbot-fileserver.py:381-404 | while the test node holds one reservation: a datagram counts exactly if it names a path and a run, carries its token, belongs to its run or a part of it, and describes a well-formed fragment |
| `VideoSummary.ReportBalances` | deploy/stockbot-fileserver.py:337-378 | live, full and final summaries of one state report the same seen, complete and partial, with complete + partial = seen |
| `VideoSummary.CountActive` | deploy/stockbot-fileserver.py:454-469 | the counting loop splits the active frames into the whole ones and the rest |
| `VideoSummary.LiveReport` | deploy/stockbot-fileserver.py:337-378 | the live figures, without any change of state |
| `VideoSummary.FullReport` | deploy/stockbot-fileserver.py:436-500 | the full and the final figures and complete sets; only the final one drains the path |
| `VideoSummary.ComparePaths` | deploy/stockbot-fileserver.py:501-539 | both + left-only + right-only = either, and winners + ties = frames complete on both; each path wins exactly the frames with which it was faster, by its own stamps if both sides have one and by arrival if not |
| `VideoSummary.Pair` | deploy/stockbot-fileserver.py:511-526 | the pairing loop awards every common frame exactly once, to the path that was faster with it |
| `VideoSummary.SignTells` | deploy/stockbot-fileserver.py:516-526 | the sign of the comparison says which path took less time from sending to first arrival if both sides stamped the frame, and which was first if one stamp is missing |
| `VideoSummary.SwapNegates` | deploy/stockbot-fileserver.py:511-526 | with the two paths swapped every comparison is the opposite, and winners and losers change places |
| `VideoSummary.SendingLaterDecidesNothing` | deploy/stockbot-fileserver.py:516-526 | sending all frames of a path later decides no comparison, if both sides stamped them |
| `VideoSummary.SkewMovesComparison` | deploy/stockbot-fileserver.py:516-526 | a sender clock that is ahead moves every corrected comparison by just as much, and the sign changes exactly if the frame was not won by more |
| `VideoSummary.SkewDecidesIff` | deploy/stockbot-fileserver.py:516-526 | the winners and ties stay the same under a skew if and only if every common frame outlasts it |
| `VideoSummary.SkewTurnsWinner` | deploy/stockbot-fileserver.py:516-526 | a frame delivered first on the left goes to the right if the left sender's clock is behind |
| `VideoSender.PlanMeetsBudget` | src/ltap_testbench/traffic/video_udp.py:66-85 | every frame has a byte; the total is between target - 1/2 and target + frames, within 1/2 if no share was raised to a byte; if the weights sum to at least 1 every frame has its part of the target by its weight in whole bytes, and at most one more |
| `VideoSender.PlanIsProportional` | src/ltap_testbench/traffic/video_udp.py:66-85 | the plan frame by frame, for any positive weights: the whole part of the budget by weight, at least one byte, and an even deal of the bytes left over, the first frames first |
| `VideoSender.BumpedEvenly` | src/ltap_testbench/traffic/video_udp.py:78-84 | whatever the remainder, no frame is topped up more than once more often than another |
| `VideoSender.SharesMeetTarget` | src/ltap_testbench/traffic/video_udp.py:73-75 | the scaled weights never exceed the budget, and use it up exactly once they sum to one |
| `VideoSender.BumpedOnce` | src/ltap_testbench/traffic/video_udp.py:80-84 | a remainder of at most one byte a frame gives no frame two |
| `VideoSender.Allot` | src/ltap_testbench/traffic/video_udp.py:73-79 | the rounded shares, one per frame |
| `VideoSender.TopUp` | src/ltap_testbench/traffic/video_udp.py:80-84 | the remainder loop, in place on the list of sizes |
| `VideoSender.FrameSizeSchedule` | src/ltap_testbench/traffic/video_udp.py:66-85 | the whole schedule is the plan whose budget is proved |
| `VideoSender.FragmentCountIs` | src/ltap_testbench/traffic/video_udp.py:157 | the fragment count is the rounded-up quotient, at least one |
| `VideoSender.FragmentSizes` | src/ltap_testbench/traffic/video_udp.py:156-181 | every fragment holds between 1 and payload bytes, all but the last are full, and nothing is left exactly after the last |
| `VideoSender.PlannedTakesAll` | src/ltap_testbench/traffic/video_udp.py:163-181 | the planned fragment sizes of a frame add up to the frame |
| `VideoSender.FrameOverhead` | src/ltap_testbench/traffic/video_udp.py:175-180 | headers of at most h bytes cost a frame at most h - 1 bytes |
| `VideoSender.WireBytes` | src/ltap_testbench/traffic/video_udp.py:151-182 | bytes sent are between the planned bytes and those plus frames * (h - 1) |
| `VideoSender.EveryDatagramIsPlanned` | src/ltap_testbench/traffic/video_udp.py:163-178 | every datagram names a frame that was sent, its place in it, and that frame's own count; it carries a full payload, or what is left of the frame, and is as long as that or as its own header, whichever is longer |
| `VideoSender.SendFrame` | src/ltap_testbench/traffic/video_udp.py:156-181 | the fragment loop: what it sends, and that nothing remains if and only if no fragment was cut off |
| `VideoSender.RunProbe` | src/ltap_testbench/traffic/video_udp.py:127-187 | refuses bad parameters; otherwise frames, datagrams and bytes counted are those sent |
| `VideoJoin.FramesAreConserved` | src/ltap_testbench/jobs/engine.py:1259-1309 | if the receiver sees only what the sender sent: frames sent = fully lost + partial + complete, no clamp bites, and the complete count is that of the frames the path completed |
| `VideoJoin.BothPathsAgree` | src/ltap_testbench/jobs/engine.py:1259-1309 | on two such paths lost-on-both equals the sum of the buckets, and with the frames complete on either it makes up the frames sent; the buckets' figures for each path add up to the complete count of its row |
| `VideoJoin.LostOnBothAgrees` | src/ltap_testbench/jobs/engine.py:1345-1364 | in general the two figures agree if and only if the complete frames lie among those sent or cover them |
| `VideoJoin.ForeignFrameHidesLoss` | src/ltap_testbench/jobs/engine.py:1345-1364 | one frame sent and another one complete: the figure says 0 lost, the bucket 1 |
| `VideoJoin.LosslessIsComplete` | src/ltap_testbench/jobs/engine.py:1259-1309 | if every datagram arrives, however repeated and reordered, every frame sent is complete |
| `VideoJoin.AllIsSent` | src/ltap_testbench/traffic/video_udp.py:163-178 | without cancellation every planned fragment is sent |
| `VideoJoin.DeliveredFacts` | src/ltap_testbench/traffic/video_udp.py:151-182 | what a receiver of this sender's datagrams sees is well-formed, has one count per frame, and names only frames sent |
| `VideoJoin.DualPathBuckets` | src/ltap_testbench/jobs/engine.py:1342-1375 | the buckets tile the frames sent, each counts its own frames on the left, on the right, on either and on neither path, and the outage is the longest interval of frames missing from both |
| `VideoJoin.BucketTells` | src/ltap_testbench/jobs/engine.py:1345-1364 | bucket i counts, of the frames f with i * fps <= f < (i + 1) * fps that were sent, those complete on the left, on the right, on either and on neither |
| `VideoJoin.BucketsCover` | src/ltap_testbench/jobs/engine.py:1345-1364 | there is a bucket for every second in which a frame was sent, and no other |
| `VideoJoin.LongestGapUnique` | src/ltap_testbench/jobs/engine.py:1365-1370 | the longest outage does not depend on how the buckets cut the frames |
| `VideoJoin.ScanBucket` | src/ltap_testbench/jobs/engine.py:1365-1370 | the running count over a bucket continues the scan of all frames before it |
| `VideoJoin.AddBucket` | src/ltap_testbench/jobs/engine.py:1349-1364 | appending a bucket extends the tiling by the next interval and its figures |
| `VideoJoin.BucketsAddUp` | src/ltap_testbench/jobs/engine.py:1348-1364 | over the first buckets: expected adds up to the frames so far, left and right to those of them complete on that path, either and lost to those complete on one or on none |
| `UdpReceiver.TotalsTell` | deploy/stockbot-fileserver.py:191-216 | unique is the number of distinct numbers (and unnumbered datagrams), the rest duplicates, out of order the descents of the deduplicated arrival order |
| `UdpReceiver.LossEstimate` | deploy/stockbot-fileserver.py:206-216 | for every history with a number: the estimate falls short of the holes by the lag, down to zero; it is exact if and only if nothing is missing, or the least number came first, no unnumbered datagram came before the last new number, and the maximum is intact |
| `UdpReceiver.LossEstimateFromFirst` | deploy/stockbot-fileserver.py:206-216 | counted from the first arrival: max(0, holes above it - distinct arrivals below it - the rest of the lag) |
| `UdpReceiver.NothingToMiss` | deploy/stockbot-fileserver.py:196-216 | without any number nothing is reported missing |
| `UdpReceiver.GreatestTells` | deploy/stockbot-fileserver.py:210-215 | for every history: the stored maximum is the greatest number seen if and only if that is not zero or zero was the last new number |
| `UdpReceiver.LossPercentIsExact` | deploy/stockbot-fileserver.py:271-286 | for every history with a number: the public percentage is that of the holes among all numbers if and only if nothing is missing, or the estimate is exact and every datagram had a number |
| `UdpReceiver.DescentHidesLoss` | deploy/stockbot-fileserver.py:206-216 | numbers 5 and then 1: three are missing, 60 percent; the record says none and 0 percent |
| `UdpReceiver.OrderInvariant` | deploy/stockbot-fileserver.py:191-216 | bytes, datagrams, unique, duplicates and the numbers seen never depend on the order of arrival; the maximum does not where it is intact, and differs where it is intact in one order only |
| `UdpReceiver.SecondsRefineTotals` | deploy/stockbot-fileserver.py:217-249 | the seconds' bytes, datagrams, unique and duplicates add up to the record's; their sets partition the numbers seen; bucket i holds exactly the bytes, datagrams, new, repeated and late numbers of the arrivals with start + i * 10^9 <= time < start + (i + 1) * 10^9, those before the start in bucket 0, and all of them if the start is 0; no bucket comes after the last second with an arrival; out-of-order counts exceed the record's by the late duplicates |
| `UdpReceiver.StepSums` | deploy/stockbot-fileserver.py:217-249 | one datagram keeps the sums |
| `UdpReceiver.StepPartitions` | deploy/stockbot-fileserver.py:237-247 | one datagram keeps the partition |
| `UdpReceiver.StepPlaces` | deploy/stockbot-fileserver.py:217-249 | one datagram changes the bucket of its second, as its number and the ones before it dictate, and no other |
| `UdpReceiver.UdpRecord.CountDatagram` | deploy/stockbot-fileserver.py:191-216 | the record's own counters after a datagram |
| `UdpReceiver.UdpRecord.AddSequence` | deploy/stockbot-fileserver.py:202-216 | the counters after a new sequence number |
| `UdpReceiver.UdpRecord.ExtendTo` | deploy/stockbot-fileserver.py:220-232 | the extension loop appends empty seconds up to the current one |
| `UdpReceiver.UdpRecord.LogDatagram` | deploy/stockbot-fileserver.py:217-249 | the account per second after a datagram |
| `UdpReceiver.UdpRecord.RecordDatagram` | deploy/stockbot-fileserver.py:139-254 | the whole record after a datagram, the one the theorems speak of |
| `Reservations.LeaseIsHeld` | deploy/stockbot-fileserver.py:104-136 | if the gap between renewal calls and twice the longest call fit into the lease, and whoever changes its length leaves it that long, then whatever others ask the lease is held if and only if nobody releases it: no second reservation, every renewal succeeds, traffic is accepted exactly for the holder's token and matching run ids |
| `Reservations.EngineLeaseIsHeld` | src/ltap_testbench/jobs/engine.py:317-337 | so with the engine's lease and interval, for calls of up to a third of the lease, less half of what the waits may be late |
| `Reservations.LeaseNumbers` | src/ltap_testbench/jobs/engine.py:317-337 | a lease of at least ten minutes, and five more than estimated; renewals three times within it, at least every five minutes and at most once a second |
| `Reservations.CreatedIsServed` | deploy/stockbot-fileserver.py:104-136 | from the granted reservation to the traffic: while it is tended and unreleased no other is granted, its renewals are, and traffic is accepted exactly with the token supplied for it, for its run or a part of it |
| `Reservations.GrantLasts` | deploy/stockbot-fileserver.py:826-912 | a reservation granted or renewed lasts exactly its length from then on; then another can be granted and it can no longer be renewed |
| `Reservations.MatchesIff` | deploy/stockbot-fileserver.py:119-124 | traffic belongs to the run of a reservation that names none, to the same run, or to a part of it |
| `Reservations.LateLeaseCanBeLost` | deploy/stockbot-fileserver.py:104-112 | the bound is sharp |
| `Reservations.AtMostOne` | deploy/stockbot-fileserver.py:826-843 | no request makes the table hold two reservations |
| `Reservations.TestNode.Prune` | deploy/stockbot-fileserver.py:104-112 | exactly the expired reservations go |
| `Reservations.TestNode.CreateReservation` | deploy/stockbot-fileserver.py:826-843 | granted exactly if nothing live is left; the new table |
| `Reservations.TestNode.RenewReservation` | deploy/stockbot-fileserver.py:895-912 | granted exactly if still live; the new table |
| `Reservations.TestNode.ReleaseReservation` | deploy/stockbot-fileserver.py:887-892 | the reservation is gone, whether it was there or not |
| `Reservations.TestNode.Authorize` | deploy/stockbot-fileserver.py:119-136 | accepted exactly for a live token and a run id that is the reserved one or extends it with "-" |
| `Reservations.RenewalMonitor.Run` | src/ltap_testbench/jobs/engine.py:72-115 | with waits that last the interval or longer, the calls are as timely as the lease theorem asks, stop at the first failure, and a failure is flagged if and only if one happened |
| `RunStateMachine.RunsAreShort` | src/ltap_testbench/jobs/state_machine.py:20-89 | no run visits a state twice, and none more than fourteen states |
| `RunStateMachine.LongestRun` | src/ltap_testbench/jobs/state_machine.py:20-89 | the bound is met |
| `RunStateMachine.EdgesClimb` | src/ltap_testbench/jobs/state_machine.py:20-89 | every allowed transition raises the rank |
| `RunStateMachine.EndsReachedFrom` | src/ltap_testbench/jobs/state_machine.py:20-89 | from which states a run can be cancelled, fail, be restored, complete or need recovery |
| `RunStateMachine.StepsReachedFrom` | src/ltap_testbench/jobs/state_machine.py:20-89 | from which states each step on the way can be reached |
| `RunStateMachine.RestartIsLegalIff` | src/ltap_testbench/jobs/state_machine.py:97-102 | the restart target is legal exactly for the states that need restoration |
| `RunStateMachine.RecoverIncompleteRuns` | src/ltap_testbench/jobs/engine.py:1747-1764 | recovery stops at the first run whose target the table refuses; earlier runs are recovered, later ones untouched |
| `RunEngine.Run.ExecuteRun` | src/ltap_testbench/jobs/engine.py:1378-1733 | for every plan and world: follows the table, ends as its fate says, is cancelled (the event never set) if and only if a request on the row is heard, runs a beginning of its script in order, releases exactly once and last if and only if it reserved, neither reserves nor measures if its event is set beforehand, and fails for a lost reservation only if it had one and lost it; once the cancel event is set, or a lease that was reserved is lost, the run does not complete if a look for it is still to come, and carries out at most one more action, or two if the lease is lost before the first measurement is over |
| `RunProgram.HonouredIff` | src/ltap_testbench/jobs/engine.py:700-710 | a run is cancelled by requests on the row if and only if one is followed by a check that is reached, before the next transition and before anything raises |
| `RunProgram.HeardIff` | src/ltap_testbench/jobs/engine.py:700-710 | of the program, the world and the moment of a request alone: it is heard if and only if the next of all checks and transitions is a check, and nothing raises before |
| `RunProgram.NeverHeard` | src/ltap_testbench/jobs/engine.py:1425-1451 | a request in the created state, or while warming up, cooling down, analysing or generating the report, is never heard |
| `RunProgram.UncheckedStates` | src/ltap_testbench/jobs/engine.py:1390-1679 | the states of a run in which the engine does not look: created, warming up, cooling down, analysing, generating the report |
| `RunProgram.CancelledIff` | src/ltap_testbench/jobs/engine.py:700-710 | with the event included: a run is cancelled exactly if it reaches a check at which the event is set or a request pending |
| `RunEngine.AskOnce` | src/ltap_testbench/jobs/engine.py:1736-1745 | a whole run with one request: accepted by the row, and cancelled or completed as the next check or transition has it; always completed in the states without a check |
| `RunProgram.ProgramPlaced` | src/ltap_testbench/jobs/engine.py:1390-1679 | every instruction stands in a state in which it may: transitions follow the table, checks stand in three states only, and whatever can raise in states that may fail |
| `RunProgram.ProgramRunsScript` | src/ltap_testbench/jobs/engine.py:1452-1592 | the program carries out the script of stages, however long it waits |
| `RunProgram.ReservedOnlyFirst` | src/ltap_testbench/jobs/engine.py:1428-1450 | the reservation comes before every stage, once, and only if the plan has a server |
| `RunLooks.ProgramAttentive` | src/ltap_testbench/jobs/engine.py:1446-1579 | every measurement of every plan is followed at once by a look at the lease and for a cancellation, the first by one for a cancellation; the first and every upload come right after a look at both; so does the reservation, once the run is running |
| `RunLooks.ChecksFollow` | src/ltap_testbench/jobs/engine.py:1390-1427 | before anything is reserved every check is followed by a look for a cancellation |
| `RunLooks.LooksOften` | src/ltap_testbench/jobs/engine.py:1390-1592 | how often a complete run looks for a cancellation and at the lease: before the reservation, around the measurements, and once each turn of every wait |
| `RunLooks.EvidenceIsExamined` | src/ltap_testbench/jobs/engine.py:1594-1640 | the results can be refused exactly if the plan asks for evidence |
| `RunLooks.CancelNoticed` | src/ltap_testbench/jobs/engine.py:700-710 | a cancel event set at any moment is noticed at the next look, if one is left, and at most one more action is carried out |
| `RunLooks.LossNoticed` | src/ltap_testbench/jobs/engine.py:712-719 | so is a lost lease, with one action more if it is lost before the first measurement is over |
| `RunLooks.LossTakesTwo` | src/ltap_testbench/jobs/engine.py:1452-1480 | a lease lost as the first measurement begins is noticed after the datagrams that follow it, in every plan that begins with them |
| `RunLooks.MeasurementsAreWatched` | src/ltap_testbench/jobs/engine.py:1446-1579 | as long as a measurement is to come, so is a look for a cancellation, and one at the lease if it is not the first |
| `RunEngine.FiredFirst` | src/ltap_testbench/jobs/engine.py:1391-1395 | a cancel event that is set beforehand is noticed at the first check, before anything is done |
| `RunEngine.Run.Body` | src/ltap_testbench/jobs/engine.py:1390-1679 | the guarded part carries out its whole program, or leaves it where its fate says |
| `RunEngine.Run.MoveOn` | src/ltap_testbench/jobs/engine.py:131-138 | a transition: the session and the row take the new state, and a pending request is gone |
| `RunEngine.Run.Transition` | src/ltap_testbench/jobs/engine.py:131-138 | the new state, and whether it overwrote a cancel request |
| `RunEngine.Run.RequestCancel` | src/ltap_testbench/jobs/engine.py:1736-1745 | accepted exactly where the table allows it; a run not yet started is cancelled at once |
| `RunEngine.Run.CheckCancelled` | src/ltap_testbench/jobs/engine.py:700-710 | raises if and only if the event is set or a request is pending in the row |
| `RunEngine.Run.CheckLease` | src/ltap_testbench/jobs/engine.py:712-715 | raises if and only if there is a reservation and it was lost |
| `RunEngine.Run.Wait` | src/ltap_testbench/jobs/engine.py:433-463 | looks at lease and cancellation at every turn, and ends early only for one of them |
| `RunEngine.Run.Verify` | src/ltap_testbench/jobs/engine.py:1391-1426 | the checks before the reservation in their order, left where something raises, refuses or is cancelled |
| `RunEngine.Run.UploadRounds` | src/ltap_testbench/jobs/engine.py:1481-1540 | the rounds with their waits and looks in the order of the program |
| `RunEngine.Run.Measurements` | src/ltap_testbench/jobs/engine.py:1452-1592 | all stages, waits and looks in the order of the program |
| `RunEngine.Run.Conclude` | src/ltap_testbench/jobs/engine.py:1619-1679 | no look at cancellation any more, up to the report |
| `RunEngine.Run.Handle` | src/ltap_testbench/jobs/engine.py:1680-1711 | every exit but the early return is led by table edges to cancelled or failed |
| `RunEngine.Run.TransitionCancelled` | src/ltap_testbench/jobs/engine.py:721-727 | from every state in which cancellation is noticed, the clean-up takes legal steps to cancelled |
| `RunEngine.Run.Release` | src/ltap_testbench/jobs/engine.py:1712-1726 | one release if and only if something was reserved |
| `RunEngine.Run.Finish` | src/ltap_testbench/jobs/engine.py:1727-1730 | a finished run is completed, whatever was requested meanwhile |
| `PathStability.WaitForStablePaths` | src/ltap_testbench/jobs/preconditions.py:42-101 | stable, at the earliest sample, if and only if the paths were registered without a break for the required time at a sample before deadline and cancellation; at most timeout / poll samples, rounded up |
| `PathStability.FoundDecides` | src/ltap_testbench/jobs/preconditions.py:59-101 | a timeout or cancellation means that no such sample existed |
| `PathStability.StretchDecides` | src/ltap_testbench/jobs/preconditions.py:86-100 | the start of the current unbroken stretch is all the loop has to remember |
| `PathStability.OneBreaks` | src/ltap_testbench/jobs/preconditions.py:32-39 | a sample counts exactly if there is a path and all are registered or connected; a single other path breaks the stretch |
| `PathStability.EnoughIs` | src/ltap_testbench/jobs/preconditions.py:86-100 | exactly the required time is enough, and any less is not |
| `PathStability.TurnsTakeTime` | src/ltap_testbench/jobs/preconditions.py:101 | samples are at least a poll interval apart until the deadline |
| `PathStability.Sample` | src/ltap_testbench/jobs/preconditions.py:79-100 | one turn keeps track of the current stretch and its length |
| `RouterOsApi.SentenceRoundTrip` | src/ltap_testbench/routers/mikrotik.py:95-108 | reading a written sentence gives the words back and consumes exactly its bytes, if and only if every word is non-empty and shorter than 2^32 bytes |
| `RouterOsApi.LenRoundTrip` | src/ltap_testbench/routers/mikrotik.py:40-82 | every length survives its code, modulo what five bytes can hold |
| `RouterOsApi.LenPrefixFree` | src/ltap_testbench/routers/mikrotik.py:40-82 | no length code is the beginning of another, across all five forms |
| `RouterOsApi.LenCodeIs` | src/ltap_testbench/routers/mikrotik.py:40-64 | the code on the wire: fewest bytes, most significant first, with the marks in the highest bits; from 2^28 on after a byte of its own |
| `RouterOsApi.MarksAndMasks` | src/ltap_testbench/routers/mikrotik.py:40-82 | the bit operations on the first byte are the arithmetic used in the model |
| `RouterOsApi.RepliesRoundTrip` | src/ltap_testbench/routers/mikrotik.py:110-121 | sentences sent one after the other come back one by one up to the one that ends the reply |
| `RouterOsApi.EndingWords` | src/ltap_testbench/routers/mikrotik.py:110-121 | which words end a reply, and which of them say that the command failed |
| `RouterOsApi.Api.RecvExact` | src/ltap_testbench/routers/mikrotik.py:84-93 | exactly the bytes asked for whatever the chunks, or an error if the connection ends |
| `RouterOsApi.Api.ReadLen` | src/ltap_testbench/routers/mikrotik.py:66-82 | the streaming decoder consumes what the pure one does |
| `RouterOsApi.Api.ReadSentence` | src/ltap_testbench/routers/mikrotik.py:101-108 | the streaming reader consumes exactly one sentence |
| `RouterOsApi.Api.WriteWord` | src/ltap_testbench/routers/mikrotik.py:95-99 | exactly the code and the word are sent |
| `RouterOsApi.Api.Command` | src/ltap_testbench/routers/mikrotik.py:110-121 | one sentence leaves, exactly the replies are consumed, and a trap or fatal reply is an error |
| `Batch.EveryCampaign` | src/ltap_testbench/jobs/batch_runner.py:433-618 | over every run of claims, attempts, requests, drift, errors, crashes, recoveries and resumes: attempts are numbered 1, 2, 3, ..., each counter counts its attempts, with the uncounted ones they make up all attempts, and no limit is exceeded |
| `Batch.StepKeepsInv` | src/ltap_testbench/jobs/batch_runner.py:311-398 | every single commit keeps the counters true, the limits, and the newest attempt the only one that can be under way |
| `Batch.ReasonsAreTrue` | src/ltap_testbench/jobs/batch_runner.py:452-463 | target reached means met exactly; attempts exhausted means the target missed; too many failures means just that many |
| `Batch.BlockedForever` | src/ltap_testbench/jobs/batch_runner.py:458-463 | a batch paused for too many failures in a row never starts another attempt, whatever is resumed |
| `Batch.RestartFindsNewest` | src/ltap_testbench/jobs/batch_runner.py:566-578 | recovery finds an open run only in the newest attempt, and only if the worker was in it |
| `Batch.JudgedKeepsCounters` | src/ltap_testbench/jobs/batch_runner.py:311-349 | every verdict moves exactly the counter of its attempt and keeps the limits |
| `BatchRequests.CancelHonouredIff` | src/ltap_testbench/jobs/batch_runner.py:434-553 | for every batch at work with an accepted cancel request and every course of events up to the worker's stop: it ends cancelled if and only if nothing raises and the request is heard, phase by phase |
| `BatchRequests.CancelBeforeStart` | src/ltap_testbench/jobs/batch_runner.py:411-412 | a cancel request accepted before the worker's first look is never honoured by it |
| `BatchRequests.CancelWithoutWork` | src/ltap_testbench/api/app.py:2140-2152 | without a worker a batch is cancelled at once; after the worker's stop the request is left in the row |
| `BatchRequests.CancelLostToTarget` | src/ltap_testbench/jobs/batch_runner.py:533-539 | a batch that was to be cancelled is completed when its run meets the target |
| `BatchRequests.WorkerStrandsIff` | src/ltap_testbench/api/app.py:961-987 | from claim to exit: the batch is left active without a worker if and only if a request came before the worker's first look, or a cancel request after it had paused the batch |
| `BatchRequests.StrandsIff` | src/ltap_testbench/api/app.py:984-987 | a batch becomes stranded exactly when its worker exits and leaves the row active |
| `BatchRequests.LeavesActiveIff` | src/ltap_testbench/jobs/batch_runner.py:411-412 | the row of an exiting worker becomes active exactly when the worker turns away, or by a cancel request after its stop |
| `BatchRequests.StrandedSince` | src/ltap_testbench/api/app.py:2130-2154 | over every history: stranded exactly if an exit left it active and no cancel or restart came since |
| `BatchRequests.SkipRequests` | src/ltap_testbench/api/app.py:2112-2154 | requests that come while a cancellation is pending change nothing |
| `BatchRequests.LookStops` | src/ltap_testbench/jobs/batch_runner.py:434-446 | a look past the deadline, or at a pending request, is the worker's last: no attempt begins until the batch is claimed again; a cancellation comes before the deadline and the deadline before a pause, each with its state and reason |
| `BatchRequests.LimitsStop` | src/ltap_testbench/jobs/batch_runner.py:452-463 | past a look the target comes before the number of attempts and that before the failures in a row, each with its state and reason; an attempt begins exactly if none of them stops |
| `BatchRequests.DriftStops` | src/ltap_testbench/jobs/batch_runner.py:241-247 | changed code pauses the batch before an attempt, a changed test node after a run, each with its reason |
| `BatchRequests.NoAttemptFollows` | src/ltap_testbench/jobs/batch_runner.py:433-463 | once the worker has decided to stop, no event but a claim leads to another attempt |
| `BatchRequests.VerdictStops` | src/ltap_testbench/jobs/batch_runner.py:533-542 | after a verdict a pause comes before the target and the target before the number of attempts, each with its state and reason |
| `BatchRequests.PauseDelaysTarget` | src/ltap_testbench/jobs/batch_runner.py:533-539 | a pause during the run that meets the target leaves the batch paused; resumed, it is completed without another attempt |
| `BatchRecovery.OpenIff` | src/ltap_testbench/jobs/batch_runner.py:566-612 | over every campaign: attempt i is open if and only if the worker is in it, or a worker left it open - by an error, or by a restart before it had a run - and no restart of a batch to be cancelled has swept it up since; after a restart no worker is in any |
| `BatchRecovery.LeftStep` | src/ltap_testbench/jobs/batch_runner.py:566-612 | one event: an attempt is left open after it exactly if it was before or is abandoned now, and is not swept up now |
| `BatchRecovery.OpenRunIff` | src/ltap_testbench/api/app.py:961-987 | over every campaign: a batch is over with a run that was never judged, and recovery leaves a run open, if and only if a worker raised in the middle of a run |
| `BatchRecovery.RunLeftStep` | src/ltap_testbench/api/app.py:961-987 | one event: such a batch comes only from an error in the middle of a run, and stays |
| `BatchRecovery.ReconciledHasNoOpenRun` | src/ltap_testbench/jobs/batch_runner.py:559-617 | after recovery no attempt with a run is left open, except in a batch that was over with one; an error in the middle of a run leaves just such a batch |
| `BatchRecovery.StepKeepsVersions` | src/ltap_testbench/jobs/batch_runner.py:115-141 | no step of a worker counts a valid run of another test-node version |
| `BatchRecovery.RestartKeepsVersionsIff` | src/ltap_testbench/jobs/batch_runner.py:589-593 | recovery keeps to the version exactly if it does not take over a valid run of another |
| `BatchRecovery.RecoveryCanMixVersions` | src/ltap_testbench/jobs/batch_runner.py:589-593 | such a recovery can follow every campaign that may begin an attempt |
| `BatchRecovery.DriftIff` | src/ltap_testbench/jobs/batch_runner.py:115-141 | over every campaign: the expected version is the first one a worker learnt of, and a run drifts exactly if both are known and differ |
| `BatchRecovery.RestartEnds` | src/ltap_testbench/jobs/batch_runner.py:559-617 | a restart cancels a batch that is to be cancelled, pauses every other one that has begun and is not over, and leaves the rest |
| `BatchVerdicts.FailuresInARow` | src/ltap_testbench/jobs/batch_runner.py:311-349 | over every campaign: the failures in a row are the attempts that failed, were skipped, or whose run was cancelled since the last one whose run was completed; one less exactly if a restart closed a run without a verdict |
| `BatchVerdicts.StreakStep` | src/ltap_testbench/jobs/batch_runner.py:311-398 | the same for one event: beginning, drift, and attempts cancelled by the check or closed without a run move it not at all |
| `BatchVerdicts.PausedForFailures` | src/ltap_testbench/jobs/batch_runner.py:458-463 | the worker stops for too many failures exactly if just as many attempts as allowed have failed in a row, the target is missed and attempts are left |
| `BatchVerdicts.VerdictIs` | src/ltap_testbench/jobs/batch_runner.py:311-349 | which verdict and outcome each state of a run gets, and that a verdict touches no other attempt |
| `BatchVerdicts.EndsAs` | src/ltap_testbench/jobs/batch_runner.py:381-398 | how an attempt ends without a verdict, by its preconditions or by drift, and what it counts as |
| `BatchVerdicts.RestartMakes` | src/ltap_testbench/jobs/batch_runner.py:566-612 | what a restart makes of the newest open attempt and of the counters |
| `BatchRunner.TestBatch.RunBatch` | src/ltap_testbench/jobs/batch_runner.py:401-553 | the worker ends; every commit it makes is a legal event; unless something raised, the reason it leaves is true and none of its attempts is open; older attempts are untouched; a batch no longer running is declined |
| `BatchRunner.TestBatch.StoppedIsJustified` | src/ltap_testbench/jobs/batch_runner.py:241-247 | what a stopped worker says of the batch is true of its counters |
| `BatchRunner.TestBatch.Loop` | src/ltap_testbench/jobs/batch_runner.py:433-553 | the loop terminates, as every round uses up an attempt; with a cancellation pending it ends cancelled without another attempt |
| `BatchRunner.TestBatch.OneAttempt` | src/ltap_testbench/jobs/batch_runner.py:464-553 | exactly one attempt is added, and it is over unless something raised |
| `BatchRunner.TestBatch.Controls` | src/ltap_testbench/jobs/batch_runner.py:434-446 | the worker goes on only if the batch is running and no cancellation is pending; a request that is in by now stops it, and a cancellation ends in cancelled |
| `BatchRunner.TestBatch.SleepWithControls` | src/ltap_testbench/jobs/batch_runner.py:266-290 | the sleep ends, is cut short only by a cancellation, the deadline or a pause, does nothing if there is no delay, and a pending cancellation ends it cancelled |
| `BatchRunner.TestBatch.StopAtLimits` | src/ltap_testbench/jobs/batch_runner.py:452-463 | stops if and only if no further attempt may begin |
| `BatchRunner.TestBatch.StopAfterVerdict` | src/ltap_testbench/jobs/batch_runner.py:533-542 | after a verdict a pause and the limits stop the worker, and nothing else; a pending cancellation does not |
| `BatchRunner.TestBatch.BeginAttempt` | src/ltap_testbench/jobs/batch_runner.py:464-472 | the next number, in one commit with the new attempt |
| `BatchRunner.TestBatch.FinishPreconditionFailure` | src/ltap_testbench/jobs/batch_runner.py:381-398 | the commit of a failed precondition; the newest attempt is over, the others unchanged |
| `BatchRunner.TestBatch.FinishAttempt` | src/ltap_testbench/jobs/batch_runner.py:311-349 | the verdict on an attempt and all counters, in place |
| `BatchRunner.TestBatch.RecordVersion` | src/ltap_testbench/jobs/batch_runner.py:115-141 | the first version seen becomes the expected one, any other is drift |
| `BatchRunner.TestBatch.EndRun` | src/ltap_testbench/jobs/batch_runner.py:515-532 | one commit after the run: a verdict, or invalid for drift |
| `BatchRunner.TestBatch.AfterFailure` | src/ltap_testbench/jobs/batch_runner.py:474-493 | what follows a failed precondition: a pending cancellation is honoured if and only if the check reports it or attempts are left; a cancelled check ends the batch cancelled |
| `BatchRunner.TestBatch.AfterRun` | src/ltap_testbench/jobs/batch_runner.py:515-553 | what follows a run: a cancellation that is pending by then is honoured, here or at the next look, if and only if the version has not changed, the target is missed and attempts are left; not past a requested pause |
| `BatchRunner.TestBatch.FinishBatch` | src/ltap_testbench/jobs/batch_runner.py:241-247 | state and reason of a stop, in one commit |
| `BatchRunner.TestBatch.Claim` | src/ltap_testbench/api/app.py:1061-1089 | the claim in one commit, with a fresh cancel event |
| `BatchRunner.TestBatch.RunInBackground` | src/ltap_testbench/api/app.py:961-987 | whatever is raised or requested, the worker ends and its entry is gone; what was raised is on record, and otherwise none of its attempts is open |
| `BatchRunner.TestBatch.ReconcileBatch` | src/ltap_testbench/jobs/batch_runner.py:560-617 | what a restart makes of the row, in place |
| `BatchRunner.TestBatch.Recover` | src/ltap_testbench/jobs/batch_runner.py:556-618 | a restart is one event, and the batch is not active after it |
| `BatchController.SingleActiveBatch` | src/ltap_testbench/api/app.py:1012-1089 | over every history of creations, deletions, claims, requests, worker steps and restarts: at most one batch is active, at most one has a worker, the two belong together, and after a restart there is neither |
| `BatchController.StepKeepsSystemInv` | src/ltap_testbench/api/app.py:990-1089 | every step keeps that, and every campaign's own invariant |
| `BatchController.QuietStays` | src/ltap_testbench/api/app.py:2112-2154 | nothing but a claim makes a quiet batch active |
| `BatchController.ClaimIff` | src/ltap_testbench/api/app.py:1012-1089 | which batches can be claimed, and that none must be active or have a worker |
| `BatchController.EarlyPauseStrands` | src/ltap_testbench/jobs/batch_runner.py:411-412 | a pause between the claim and the worker's first look leaves every claimable batch active without a worker |
| `BatchController.LateCancelStrands` | src/ltap_testbench/api/app.py:984-987 | a cancel request between the worker's pause and its exit does so, too |
| `BatchController.StrandedBlocksAll` | src/ltap_testbench/api/app.py:1033-1050 | while it is, no batch can be started, whatever else happens short of its cancellation or a restart |
| `BatchController.StrandedStays` | src/ltap_testbench/api/app.py:2130-2154 | exactly its cancellation or a restart frees it |
| `BatchController.CancelFrees` | src/ltap_testbench/api/app.py:2130-2154 | after that cancellation every claimable batch can be started |
| `BatchController.BegunIsKept` | src/ltap_testbench/api/app.py:2093-2104 | over every history: a batch that has begun an attempt is never deleted, and none of its attempts is lost |
| `BatchController.Controller.StartBatchWorker` | src/ltap_testbench/api/app.py:990-1089 | a claim succeeds exactly if the batch is claimable and due, its protocol known, and no batch active or held by a worker; otherwise nothing changes |
| `BatchController.Controller.PauseBatch` | src/ltap_testbench/api/app.py:2112-2127 | the new rows and the reply |
| `BatchController.Controller.CancelBatch` | src/ltap_testbench/api/app.py:2130-2154 | the new rows, the reply, and the worker's event set if there is one |
| `BatchController.Controller.ForgetWorker` | src/ltap_testbench/api/app.py:984-987 | the last worker's entry goes, and the table of workers is empty |
| `BatchController.Controller.RecoverInterruptedBatches` | src/ltap_testbench/jobs/batch_runner.py:556-618 | after the recovery loop every batch is reconciled, none is active, and there are no workers |

## Left out

- Sockets, HTTP framing, threads, subprocesses, JSON and UTF-8, hashing, identifiers and random frame weights: headers are records, identifiers and weights parameters.
- Database sessions: a commit is one atomic step. A request handler is one atomic step, too, so races inside a handler, such as two claims between check and update, are not modelled.
- Floating point: times are integers of nanoseconds or real numbers, rates and shares real numbers, so the rounding of milliseconds, rates and percentages is not modelled. Percentiles and spans in milliseconds are not either.
- The outer dictionaries that find the record or path of a datagram, and the choice of the first two path ids in sort order: the methods work on the record or path itself.
- Labels without influence on the counters: source addresses, ports, wall-clock stamps, heartbeats, worker ids and lease columns of a batch.
- The sender's pacing between frames; cancellation can come before any fragment or frame.
- The sign of the argument of a sleep: two waits read the clock again just before sleeping, so nothing is claimed about it.
- Reservation ids and tokens are supplied from outside; that a new token differs from older ones is not claimed.
- The judgement of a run's integrity, the telemetry sampler and the stored artifacts of a run: stages end well or raise, and evidence is there or not.
- The adapter of a router, taken before the guarded part of a run, and faults of the database in the handlers of a run.
- Changes to a batch's limits after its creation; no route makes them.
- RunEngine.Run.Finish: does not model the move from analysis to report after the clean-up, because no path of the engine reaches it.
- RunEngine.Run.ExecuteRun: the moments of a request, the cancel event and a lost lease are those before an instruction; within an instruction they are not told apart.
- The second test-node implementation under `testnode/`, which repeats the reservation rules with less state, and the analytics.
- PathStability.WaitForStablePaths: takes statuses already in lower case, and assumes of the clock only that a sleep lasts as long as asked.
- VideoSender.PlanMeetsBudget: over real weights that are positive, and a positive target; the random weights themselves are not modelled.

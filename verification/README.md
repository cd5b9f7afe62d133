# Verified model of the blackbox flight recorder

The daemon keeps a bounded history of kernel observations, saves it around incidents and
analyzes saved captures. This Dafny project models the components whose correctness is not
visible from one function, and proves what holds over all inputs and all runs:

- **Recorder** (`RecorderSpec`, `Recorder`, `RecorderInvariant`, `RecorderConservation`, `RecorderBudget`,
  `RecorderTips`, `RecorderFoldCost`, `RecorderPolling`, `RecorderOverrun`, `RecorderExpiry`, `RecorderDetails`,
  `RecorderAccounts`, `RollupMinutes`, `SnapshotSpec`, `SnapshotCoverage`). A value-level specification of the two-tier, byte-accounted history, and a class
  over growing arrays that refines it call by call. Segments that captures share are shared arrays, so
  isolation is a statement about the heap. `SnapshotCoverage` says which retained aggregates a capture holds.
- **Automatic incidents** (`Controller`, `ControllerRuns`, `IncidentHistory`, `Lease`, `Store`, `AutomaticWriter`). The scheduler as
  a class refining functions and as a transition system; the snapshot lease, worker and shutdown as
  interleaved steps; the capture directory under failures and crashes; and the three together: what
  the loop believes was saved against what the directory holds.
- **Container** (`Container`, `ContainerReader`, `SegmentJson`). Entry-level writer and reader, the
  streaming segment decoder over JSON tokens, and the round trip.
- **Automatic captures** (`CaptureEvidence`, `AutomaticCapture`, `PolledCapture`, `MergedInterval`) join recorder, controller
  and container: every capture the loop hands to the writer is one the reader accepts, and what it
  holds of the intervals that triggered it is stated exactly.
- **Analyzer** (`Correlation`, `Percentile`, `Analyzer`). The sliding-window coincidence search, the
  percentile bound and the per-family totals.
- **Kernel trackers** (`DetailQuota`, `QuotaAttained`, `BudgetSweep`, `BlockTiming`, `RunnableWait`, and
  `SensorDeltas` in `Analyzer.dfy`). A concurrent quota with a sweeper, a requeue-aware request timer and
  a runnable-wait tracker against ideal specifications over traces.

`Telemetry` and `CaptureModel` hold the shared data. Times are nanosecond naturals. Aggregate
counters are 64-bit words whose sums wrap, as in the source.

Where the code and its own comments differ, the model follows the code:

- The recorder's comments call its budget a cap. For the recorder alone that is false: a refused event can
  leave the history over it, because folding metrics with gaps between them may double a rollup's buffer.
  `RecorderOverrun` gives such a run and `RecorderFoldCost.EventFitsExactly` says exactly when it happens. The
  daemon's polls leave no gaps, and `RecorderPolling.PollingWithinBudget` shows that they keep any budget.
- A capture of everything may leave out one aggregate per family: without rollups the retained history is
  taken to begin at the oldest segment, and an aggregate of that segment may have started before it.
  `SnapshotCoverage.StraddlerIsLeftOut` gives such a run; the polling results say when it cannot happen.
- `initialMetricCapacity` is declared as 8 but never used; metric buffers start at 4.

## Model
| member | source | states |
|---|---|---|
| RecorderBuffers.Recorder.DropRaw | internal/recorder/recorder.go:93-100 | drops the oldest sealed segment and its charge; no buffer a capture may share is written |
| RecorderBuffers.Recorder.DropRollup | internal/recorder/recorder.go:115-127 | drops the oldest sealed rollup, or the mutable one when it is the last, with its charge |
| RecorderBuffers.Recorder.AddRollupMetric | internal/recorder/recorder.go:153-193 | updates the mutable rollup in place exactly as the specification merges or appends, charging buffer growth |
| RecorderBuffers.Recorder.FindContinued | internal/recorder/recorder.go:158-162 | finds the first entry the metric continues: same family, ending where it starts |
| RecorderBuffers.Recorder.CompactOldest | internal/recorder/recorder.go:129-151 | folds the oldest sealed segment into the rollup of its minute |
| RecorderBuffers.Recorder.Advance | internal/recorder/recorder.go:67-92 | seals, expires, folds and evicts to exactly the specified state, on the arrays |
| RecorderBuffers.Recorder.Room | internal/recorder/recorder.go:101-111 | folds, evicts only for a metric, and answers whether the cost fits |
| RecorderBuffers.Recorder.Event | internal/recorder/recorder.go:197-229 | accepts or drops a detail exactly as specified, with capacity doubling on real buffers |
| RecorderBuffers.Recorder.Metric | internal/recorder/recorder.go:230-258 | accepts or drops an aggregate exactly as specified |
| RecorderBuffers.Recorder.RetainedFrom | internal/recorder/recorder.go:259-271 | the start of the retained history, from segment starts and rollup extremes |
| RecorderBuffers.Recorder.ActualStart | internal/recorder/recorder.go:288-305 | the scan that skips rollups by their extremes still finds the earliest crossing interval of all of them |
| RecorderBuffers.Recorder.FirstEnding | internal/recorder/recorder.go:310 | binary search: no earlier sealed segment ends in the window and every later one does |
| RecorderBuffers.SelectOne | internal/recorder/recorder.go:312-356 | skips, shares, copies or filters one segment; the result always shows the plain filter, and a mutable buffer is never shared |
| RecorderBuffers.EventsIn | internal/recorder/recorder.go:331-348 | the counted, exactly sized copy holds the events of the window in order |
| RecorderBuffers.MetricsIn | internal/recorder/recorder.go:331-354 | the counted, exactly sized copy holds the complete intervals of the window in order |
| RecorderBuffers.Recorder.SelectRollups | internal/recorder/recorder.go:357-374 | selects the rollups and the end of the aggregate-only part |
| RecorderBuffers.Recorder.SelectRaw | internal/recorder/recorder.go:375-378 | selecting from the binary search point on loses nothing of the sealed history |
| RecorderBuffers.Recorder.SnapshotWindow | internal/recorder/recorder.go:283-380 | the array-level selection with all its shortcuts shows exactly the specified capture |
| RecorderBuffers.Recorder.Snapshot | internal/recorder/recorder.go:272-279 | advances, then selects the last part of the history |
| RecorderBuffers.SnapshotThenRun | internal/recorder/recorder.go:283-380 | isolation: after any later events, metrics, folds and evictions a returned capture still shows what it showed |
| SnapshotSpec.SkipLosesNothing | internal/recorder/recorder.go:312-316 | a segment skipped by its extreme timestamps holds nothing of the window |
| SnapshotSpec.ActualStart | internal/recorder/recorder.go:284-305 | the start is the clamped request, widened to the earliest rollup interval strictly crossing it and ending in the window |
| SnapshotSpec.SnapshotExact | internal/recorder/recorder.go:283-380 | the selected events and metrics are exactly the plain filter of the retained history, in order |
| SnapshotSpec.RunSnapshotExact | internal/recorder/recorder.go:283-380 | the same in every state any run of calls reaches |
| SnapshotSpec.WideningIsMarked | internal/recorder/recorder.go:357-374 | a start widened below the request implies an aggregate-only boundary past the request |
| SnapshotSpec.StartExact | internal/recorder/recorder.go:284-305 | the start is the request clamped to the history and the window, or that of the first rollup aggregate that crosses it and ends in the window |
| SnapshotSpec.ManifestExact | internal/recorder/recorder.go:357-380 | every manifest field: the aggregate-only mark is the latest end of a rollup aggregate in the window |
| SnapshotSpec.MarkedExactly | internal/recorder/recorder.go:357-374 | the mark is absent exactly when no rollup aggregate that ends past time zero lies in the window |
| SnapshotSpec.SegmentsExact | internal/recorder/recorder.go:307-380 | the saved segments are the retained ones in order under their own start and end; one is left out only when nothing of it lies in the window |
| SnapshotSpec.RunSnapshotAgrees | internal/capture/capture.go:198-221 | over any run, every selected window ending after the recording began passes all reader window checks |
| SnapshotCoverage.CapturedExactly | internal/recorder/recorder.go:283-356 | a retained aggregate is captured exactly when it ends in the window and starts within the retained part of it or no earlier than a rollup interval crossing its start |
| SnapshotCoverage.FullRawCaptureExact | internal/recorder/recorder.go:259-305 | without rollups a capture of everything is complete exactly when no raw aggregate starts before the oldest segment |
| SnapshotCoverage.CaptureSplitsTotals | internal/recorder/recorder.go:283-380 | any capture and what it leaves out add up to everything retained, per family |
| SnapshotCoverage.PolledCaptureLeavesStraddlers | internal/app/app.go:285-339 | over any steadily polled run a capture of everything leaves out at most one aggregate per family, which straddles the oldest segment's start, and none once there are rollups |
| SnapshotCoverage.FoldRestoresStraddlers | internal/recorder/recorder.go:129-151 | a fold that makes a rollup brings the straddlers back: the capture then holds the totals of everything retained |
| SnapshotCoverage.StraddlerIsLeftOut | internal/recorder/recorder.go:259-305 | a concrete steadily polled run whose only retained aggregate no capture holds until it is folded |
| RecorderInvariant.StepHolds | internal/recorder/recorder.go:67-258 | every call keeps the invariant: byte accounting, capacity charges, segment order and extremes |
| RecorderInvariant.RunHolds | internal/recorder/recorder.go:39-62 | bytes always equals the sum of all live charges, in every reachable state |
| RecorderConservation.MergeKeeps | internal/recorder/recorder.go:160-180 | merging two adjacent intervals keeps counters, covered time and the layering of every instant |
| RecorderConservation.CompactKeeps | internal/recorder/recorder.go:131-193 | a fold changes no family's counters, covered time or number of intervals over any instant |
| RecorderConservation.FoldKeeps | internal/recorder/recorder.go:102-104 | any number of folds changes none of them |
| RecorderConservation.RunConserves | internal/recorder/recorder.go:67-127 | over any run, per family: accepted = retained + time-expired + memory-evicted |
| RecorderConservation.EventRoomLosesNothing | internal/recorder/recorder.go:105-107 | room made for a detail never loses an aggregate |
| RecorderConservation.EvictionOnlyWithoutRaw | internal/recorder/recorder.go:86-111 | a rollup is evicted for memory only when no sealed raw segment remains |
| RecorderDetails.EventExact | internal/recorder/recorder.go:197-229 | a detail is accepted exactly when it is neither late nor from the future and folding makes room; it is then appended as offered to the newest of the details held, and a refused one is not |
| RecorderDetails.MetricExact | internal/recorder/recorder.go:230-258 | an accepted aggregate is appended as offered to the newest of the raw aggregates held, and a refused one is not |
| RecorderDetails.RetainedAreNewest | internal/recorder/recorder.go:197-258 | over any run the details retained are the newest of those accepted, as offered and in order, and so are the aggregates of the raw tier |
| RollupMinutes.FoldCutsByMinute | internal/recorder/recorder.go:129-151 | a fold seals the open rollup exactly when the folded segment did not start in the minute of the segment that opened it |
| RollupMinutes.RollupsHoldOneMinute | internal/recorder/recorder.go:129-151 | over any run each rollup was made of segments that started in one minute of sixty billion nanoseconds, and the next rollup of segments of another |
| RecorderAccounts.AdvanceCuts | internal/recorder/recorder.go:67-85 | a segment one interval old is closed and an empty one starts now; a younger one stays and reaches to now; an earlier time changes nothing |
| RecorderAccounts.MetricAdmitted | internal/recorder/recorder.go:230-258 | an aggregate is accepted exactly when it fits the budget beside the segment being written: everything else gives way to it |
| RecorderAccounts.FoldsLeast | internal/recorder/recorder.go:101-104 | folding stops at the first state in which the cost fits, in arithmetic on the history before it, and counts each fold |
| RecorderAccounts.EvictsLeast | internal/recorder/recorder.go:105-127 | eviction takes the oldest rollups only while the cost does not fit and counts each |
| RecorderAccounts.ExpireCountsNothing | internal/recorder/recorder.go:78-85 | losing history to age counts as no eviction |
| RecorderAccounts.RunAccounts | internal/recorder/recorder.go:39-62 | over any run: 512 bytes for each segment, 224 for each buffer slot and the raw strings; every buffer is the least that holds what came; a sealed segment is one interval long |
| RecorderBudget.StepFits | internal/recorder/recorder.go:86-111 | within budget after every advance that is not early, every metric and every accepted event |
| RecorderFoldCost.CompactCost | internal/recorder/recorder.go:131-193 | what a fold adds to the bytes, in arithmetic: the opened rollup and the doubled buffer less the folded segment's charge |
| RecorderFoldCost.FoldGrowsExactly | internal/recorder/recorder.go:131-193 | a fold grows the history exactly when the rollup it opens and the buffer doubling that its gaps force cost more than the segment was charged |
| RecorderFoldCost.FoldUntilExactly | internal/recorder/recorder.go:101-104 | folding makes room exactly when some prefix of the sealed segments has a small enough growth; otherwise all are folded |
| RecorderFoldCost.EventFitsExactly | internal/recorder/recorder.go:197-229 | an event leaves the history within budget exactly when it is late, some number of folds makes room for it, or folding everything costs no more than the budget allows, all computed from the history it finds |
| RecorderBudget.CompactFrees | internal/recorder/recorder.go:131-193 | with contiguous families a fold never increases the bytes |
| RecorderBudget.RunWithinBudget | internal/recorder/recorder.go:67-258 | with contiguous families the bound holds after every call and rollups hold one entry per family |
| RecorderPolling.CompactFrees | internal/recorder/recorder.go:131-193 | when the metrics offered are contiguous per family, refused ones included, a fold never increases the bytes |
| RecorderPolling.PollingWithinBudget | internal/app/app.go:285-339 | polls that start where the last one of their family ended, accepted or refused, keep any budget after every call |
| RecorderOverrun.GapsOverrunBudget | internal/recorder/recorder.go:182-191 | for the recorder alone the bound is false: a run of gapped metrics, which the daemon's polls never make, ends at 4608 bytes over a budget of 4232 |
| RecorderExpiry.AdvanceExpiresExactly | internal/recorder/recorder.go:67-92 | after any run with ordered metric ends, an advance records as expired exactly the metrics of the segments and rollups at least `history` old, each of which ended that long ago; the others pass on to folding |
| CaptureModel.Validate | internal/model/autocapture.go:44-71 | one pass over the triggers decides exactly the incident's validity, distinct families included |
| Controller.Controller.Observe | internal/autocapture/controller.go:57-108 | the class takes exactly the specified step: open, extend, merge or ignore |
| Controller.Controller.Schedule | internal/autocapture/controller.go:75-98 | current, waiting and merged windows, with the coalescing count |
| Controller.Controller.Record | internal/autocapture/controller.go:99-107 | at most one trigger per family, updated in place |
| Controller.Controller.Deadline | internal/autocapture/controller.go:114-119 | no deadline while writing |
| Controller.Controller.CollectedThrough | internal/autocapture/controller.go:121-130 | remembers the first complete poll past each deadline |
| Controller.Controller.Begin | internal/autocapture/controller.go:132-161 | hands over the current incident, promotes the waiting one and fixes the window |
| Controller.Controller.WidenStart | internal/autocapture/controller.go:148-155 | the loop finds the earliest trigger interval straddling the previous file's end |
| Controller.Controller.Finish | internal/autocapture/controller.go:163-179 | only a published path moves the saved boundary |
| Controller.Controller.Unavailable | internal/autocapture/controller.go:53-55 | the lost family is gone from the sensors and every other one stays |
| ControllerSpec.LostNeverTriggers | internal/autocapture/controller.go:53-60 | a metric triggers after a loss exactly when it did before and is of another family |
| ControllerRuns.LostStaysSilent | internal/autocapture/controller.go:53-60 | a family once lost triggers nothing for the rest of any run |
| ControllerRuns.ApplyHolds | internal/autocapture/controller.go:57-179 | every poll, begin, finish and sensor loss keeps the scheduling invariant; only a publication moves the boundary, never backwards |
| ControllerRuns.ChosenGood | internal/autocapture/controller.go:132-161 | the incident handed over is valid for its own end, contains its triggers and overlaps the last file by at most the detecting poll |
| ControllerRuns.WindowsOverRuns | internal/autocapture/controller.go:132-161 | over whole runs every window is valid, wholly contains its triggers' intervals and repeats at most one poll interval |
| ControllerRuns.TriggersConserved | internal/autocapture/controller.go:57-112 | detections equal the trigger counts of all incidents; uncoalesced ones count the incidents opened |
| ControllerRuns.BoundaryMonotone | internal/autocapture/controller.go:163-172 | the published boundary never goes back along a run |
| ControllerRuns.FailuresNeverMoveTheBoundary | internal/autocapture/controller.go:163-179 | failed publications leave the boundary where it was |
| IncidentHistory.DetectionsTold | internal/autocapture/controller.go:57-112 | over whole runs the detections are the critical latencies and victims of the polled intervals whose sensor is in use; these intervals, in order, are split among the incidents, each opening past the deadline of the one before, `after` past its first interval or the last that came while it waited |
| IncidentHistory.WindowsTold | internal/autocapture/controller.go:121-161 | over whole runs every window tells of its own intervals, starts `before` its detection or at the published end, or at the earliest trigger interval across that point, and ends with the first poll at or after its deadline |
| Lease.StepHolds | internal/app/automatic.go:38-193 | every step of loop, worker, clients, cancellation and shutdown keeps the lease invariant |
| Lease.OneHolder | internal/app/automatic.go:175-193 | at most one party holds the snapshot lease, and the gate is closed exactly then |
| Lease.StaleReleaseIsHarmless | internal/app/automatic.go:182-183 | a repeated or late release never frees a later holder |
| Lease.SendsNeverBlock | internal/app/automatic.go:45-60 | sends on both capacity-one channels never block; one incident is in flight exactly while writing; each begin is finished once |
| Lease.ClosedIsClean | internal/app/automatic.go:63-87 | after close no automatic lease, job or result remains |
| Lease.WorkerCanMove | internal/app/automatic.go:71-72 | while close waits, the worker always has a step |
| Lease.ShutdownProgresses | internal/app/automatic.go:71-72 | each worker step brings it closer to exit and nothing else sets it back |
| Correlation.PartnerExists | internal/analyzer/correlation.go:26-39 | an event has a partner exactly when it coincides with an earlier one |
| Correlation.FirstExact | internal/analyzer/correlation.go:66-101 | the search succeeds exactly when some pair coincides, with the least later event |
| Correlation.PartnerMatches | internal/analyzer/correlation.go:26-39 | an event's partner is its latest process match or its latest cgroup match, and of both the earlier one; it has none exactly when it has no match, all in terms of the events' own fields |
| Correlation.FirstAnswers | internal/analyzer/correlation.go:66-101 | the quadratic search returns the first event that has a match, with that partner, or says that there is none |
| Correlation.Index.Match | internal/analyzer/correlation.go:26-39 | the index answers the earlier of the latest in-window process and cgroup matches |
| Correlation.Index.Add | internal/analyzer/correlation.go:41-52 | keeps the index exact when an event is added |
| Correlation.Index.Remove | internal/analyzer/correlation.go:54-64 | keeps the index exact when the oldest event leaves, even if a newer one replaced its key |
| Correlation.Expire | internal/analyzer/correlation.go:73-81 | after expiry the queue and both indexes hold exactly the tracked events of the window |
| Correlation.Compact | internal/analyzer/correlation.go:86 | the in-place overlapping copy moves the live part unchanged |
| Correlation.Trim | internal/analyzer/correlation.go:82-88 | copies no more than twice what was expired and keeps the dead part under half |
| Correlation.FirstCoincidence | internal/analyzer/correlation.go:66-101 | on every sorted timeline returns the first event that has a match, with the earlier of its latest process and cgroup matches, in linear queue work |
| Container.ConsumeTail | internal/capture/capture.go:319-340 | accepts exactly JSON whitespace after a value |
| Container.Writer.Put | internal/capture/capture.go:63-78 | charges header and padded data before writing an entry |
| Container.SizesWithin | internal/capture/capture.go:68 | the charge covers every entry's header and data |
| Container.WritableExactly | internal/capture/capture.go:43-72 | the writer's rules in numbers: byte and entry limits, format, clock, and an archive of whole 512-byte blocks within the limits |
| Container.Write | internal/capture/capture.go:43-101 | succeeds exactly on captures within the limits, and then with exactly their layout |
| ContainerReader.AcceptedGrammar | internal/capture/capture.go:119-177 | accepting every entry up to a marker is exactly manifest, host, segments in order, completion |
| ContainerReader.Reader.Header | internal/capture/capture.go:127-143 | the header checks: nothing after the marker, no repeat, sizes and counts within limits |
| ContainerReader.Reader.LoadLater | internal/capture/capture.go:154-170 | a later entry must be the next segment or the completion marker |
| ContainerReader.Reader.Next | internal/capture/capture.go:119-177 | one turn of the loop accepts exactly the entry that may follow |
| ContainerReader.CheckWindows | internal/capture/capture.go:198-221 | the checks in their order decide exactly the window rules |
| ContainerReader.Finish | internal/capture/capture.go:178-222 | the final checks, after the entry loop |
| ContainerReader.Read | internal/capture/capture.go:102-223 | accepts exactly the readable archives and returns their content |
| ContainerReader.WritableFits | internal/capture/capture.go:54-72 | whatever the writer accepts stays within the reader's byte and entry limits |
| ContainerReader.RoundTrip | internal/capture/capture.go:43-223 | a written capture is read back as itself exactly when its windows agree, otherwise refused |
| ContainerReader.RefusedExactly | internal/capture/capture.go:198-221 | of what the writer lets through, the reader refuses exactly the captures whose times contradict each other, each contradiction written out |
| ContainerReader.TruncatedIsRefused | internal/capture/capture.go:186-188 | an archive that lost its end is never accepted |
| SegmentJson.TokensClosed | internal/capture/capture.go:293-317 | a value's brackets return to zero depth exactly at its end |
| SegmentJson.Decoder.SkipValue | internal/capture/capture.go:293-317 | bracket counting passes exactly one value |
| SegmentJson.Decoder.DecodeArray | internal/capture/capture.go:267-291 | streams an array element by element; null is empty |
| SegmentJson.Decoder.DecodeSegment | internal/capture/capture.go:227-265 | the streamed result is what the segment text means, null times and arrays included, and all of it is consumed; a stream that stops inside the segment is refused |
| SegmentJson.NullTimeIgnored | internal/capture/capture.go:242-245 | a null time, wherever it stands, leaves the earlier value |
| SegmentJson.SegmentMeans | internal/capture/capture.go:227-289 | a segment decodes exactly when every field of a known name does; the last field of each name counts, a null time does not, and what is missing is zero or empty |
| SegmentJson.UnknownFieldIgnored | internal/capture/capture.go:250-251 | an unknown field, anywhere and of any shape, changes nothing |
| SegmentJson.OrderIsFree | internal/capture/capture.go:236-252 | fields of different kinds may come in either order |
| SegmentJson.SegmentRoundTrip | internal/capture/capture.go:227-291 | the text of a segment, empty parts omitted, means that segment |
| SegmentJson.SegmentsAreFaithful | internal/capture/capture.go:166-170 | the streaming decoder meets what the container's round trip asks of segment entries |
| SegmentJson.StreamedRoundTrip | internal/capture/capture.go:43-223 | a written capture whose windows agree reads back as itself through the streaming decoder |
| AutomaticCapture.SelectedAgrees | internal/app/automatic.go:143-151 | the capture of a collected incident passes every window rule of the reader |
| CaptureEvidence.RetainedExactly | internal/recorder/recorder.go:67-127 | an instant of a family is still retained exactly when it was accepted more often than lost to age and memory |
| CaptureEvidence.CapturedInstant | internal/recorder/recorder.go:283-380 | a capture covers an instant exactly when a retained aggregate over it ends in the window and is in reach |
| CaptureEvidence.PolledEvidence | internal/recorder/recorder.go:283-305 | under steady polling an aggregate retained over a trigger's span is captured exactly when it ends in the window and there is a rollup or it does not straddle the oldest segment's start |
| AutomaticCapture.EvidenceHeld | internal/app/automatic.go:116-152 | the selected capture's window contains each trigger's interval, observed by polls, and holds each of its instants exactly when the recorder still has one that ends in the window and is in reach |
| AutomaticCapture.EveryCaptureIsReadable | internal/app/automatic.go:116-152 | over any run of the joined recorder and controller every capture handed over has that evidence for each trigger, and what the writer accepts is read back unchanged |
| PolledCapture.PolledCapturesAreComplete | internal/app/app.go:285-339 | over any steadily polled run every capture handed over holds exactly the retained aggregates over its triggers' spans that end in its window, except a straddler of the oldest segment when there is no rollup |
| MergedInterval.MergedPastTheWindow | internal/app/automatic.go:116-152 | a concrete steadily polled run of the loop whose one capture misses its trigger's interval, still retained: while the hand-over waited, a fold merged it with a later one that ends after the window |
| AutomaticWriter.HandoversNeverBlock | internal/app/automatic.go:116-152 | whenever the loop holds the lease there is an incident to begin, and whenever it receives a result or drops a job there is one to finish |
| AutomaticWriter.BoundaryFollowsPaths | internal/app/automatic.go:45-113 | over any interleaving of polls, clients, writer, shutdown and failing saves the controller's boundary is the end of the last window whose save returned a path, its counters are those of the saves, reports come one per incident in order, and the quota holds |
| AutomaticWriter.PublishedFilesDoNotRepeat | internal/autocapture/controller.go:132-172 | over any such run a later window repeats no more of a file whose path was returned than the poll interval that detected its own incident |
| AutomaticWriter.DeliveryMovesBoundary | internal/autocapture/controller.go:163-172 | a delivered result moves the boundary to its window's end exactly when the save returned a path |
| AutomaticWriter.UnconfirmedLinkIsForgotten | internal/capture/capture.go:443-452 | a link whose directory could not be synced leaves its file behind, and yet the delivery leaves the boundary where it was and counts a failure |
| DetailQuota.WithinMoves | bpf/common.h:144-154 | the quota argument: one step keeps admissions and passing CPUs within limit plus one per other CPU |
| DetailQuota.QuotaOverRuns | bpf/common.h:128-155 | over any interleaving: admissions at most rate + N - 1, warnings at most their share + N - 1, criticals suppressed only after the rate, no count ever reset, every detail accounted for |
| DetailQuota.SingleCpuExact | bpf/common.h:148-154 | on one CPU a suppressed critical means exactly the rate was admitted |
| QuotaAttained.OvershootIsAttained | bpf/common.h:152 | for every rate and CPU count some interleaving admits exactly rate + N - 1 |
| BudgetSweep.Sensor.Collect | internal/sensor/sensor_linux.go:540-564 | collects exactly expired seconds; a walk longer than the map is retried later |
| BudgetSweep.Sensor.PruneDetailBudgets | internal/sensor/sensor_linux.go:531-572 | a completed sweep leaves exactly the unexpired seconds; any other removes only expired ones and stays due |
| BudgetSweep.SweepsKeepRoom | bpf/common.h:100-108 | with sweeps at most 124 seconds apart the 128 slots never fill and no budget failure occurs |
| BlockTiming.StartsAgree | bpf/block.c:31-121 | after any trace each entry remembers the earliest issue of its request, and whether it was requeued |
| BlockTiming.VerdictExact | bpf/block.c:68-121 | a latency is recorded exactly when the trace has an issue to measure from, and from that issue |
| BlockTiming.CountedOnce | bpf/block.c:77-121 | every final completion is counted once as timed, unmatched or bookkeeping |
| BlockTiming.Tracker.Issue | bpf/block.c:31-59 | resumes a requeued request, or starts afresh, or counts a tracking failure |
| BlockTiming.Tracker.Requeue | bpf/request_timing.h:18-28 | marks the request, and without generations makes its start unusable |
| BlockTiming.Tracker.Complete | bpf/block.c:68-121 | the outcome and all counters are those of the trace |
| RunnableWait.AlwaysSound | bpf/sched.c:10-88 | after any trace the entry of a waiting task is never earlier than its becoming runnable, and equal when no insertion failed |
| RunnableWait.WaitExact | bpf/sched.c:56-81 | a measured wait never exceeds the true one and is exact when no insertion failed |
| RunnableWait.Tracker.Enqueue | bpf/sched.c:10-22 | a repeated wakeup never shortens a wait |
| RunnableWait.Tracker.SwitchTask | bpf/sched.c:32-81 | the switch measures the entering task and restarts or discards the leaving one |
| RunnableWait.Tracker.ExitTask | bpf/sched.c:82-88 | an exit discards the entry |
| Store.NeededIsShortest | internal/autocapture/store.go:120-152 | the removed prefix is the shortest oldest-first one that meets both limits, and it always exists |
| Store.RemovedAreOldest | internal/autocapture/store.go:209-214 | a removed file was modified no later than any that stays, and of files of one time the name decides |
| Store.Rotate | internal/autocapture/store.go:118-159 | removes exactly that prefix or stops at the first file that resists; succeeds exactly when it got that far and the directory, if a removal was asked for, could be synced; never runs out of files |
| Store.RepairThenTrim | internal/autocapture/store.go:90-114 | repairing the quota first removes nothing that trimming would have kept |
| Store.Save | internal/autocapture/store.go:41-116 | a successful save adds its capture and removes exactly the shortest prefix that makes room for it, whatever others remove meanwhile; every outcome is a run of the transition system, within one capture of the quota, and a success within it |
| Store.LinkedStays | internal/capture/capture.go:443-452 | the capture a save linked is there when the save ends, however it ends, unless someone else removed it |
| Store.SavesKeepQuota | internal/autocapture/store.go:86-115 | any run of whole saves stays within one capture of the quota, and one ending in a finished save within it |
| Store.StorageWriter.Write | internal/autocapture/store.go:226-248 | writes only within the single-file budget and the free-space reserve |
| Store.QuotaOverRuns | internal/autocapture/store.go:86-115 | over saves, failures and crashes the directory stays within one file and one capture of its quota |
| Store.SavedWithinQuota | internal/autocapture/store.go:112-115 | a completed save ends within both limits |
| Store.RotationProceeds | internal/autocapture/store.go:123-152 | until the limits hold there is an older file to remove, and removing it keeps the new capture |
| Percentile.Classify | bpf/common.h:116-127 | the unrolled loop ends in the one bucket whose range holds the latency |
| Percentile.Histogram.Observe | bpf/common.h:116-127 | the buckets count exactly the observations |
| Percentile.TargetIsRank | internal/analyzer/analyzer.go:240 | the overflow-free target is the rank rounded up, and nothing leaves 64 bits |
| Percentile.Percentile | internal/analyzer/analyzer.go:235-252 | in 64-bit arithmetic, always reports the first bucket that brings the running count to the rank; that is the true one whenever the total fits 64 bits |
| Percentile.NoDataExactly | internal/analyzer/analyzer.go:236-239 | no data is reported exactly when the 64-bit total is zero |
| Percentile.WrappedTotalHidesAll | internal/analyzer/analyzer.go:236-239 | a total of exactly two to the 64 is reported as no data |
| Percentile.PercentileSound | internal/analyzer/analyzer.go:235-252 | for every set of latencies: enough observations below the reported bound, too few below the next lower one; the last bucket means at least 512 ms |
| Analyzer.Accumulate | internal/analyzer/analyzer.go:81-103 | adds every counter but the size, and the covered time |
| Analyzer.Summarize | internal/analyzer/analyzer.go:74-105 | the totals of a capture are, family by family, the sums over all its aggregates |
| Analyzer.FoldsUnchanged | internal/analyzer/analyzer.go:74-105 | any number of folds leaves the totals over the retained history as they were; what a capture holds of it is the next row's subject |
| Analyzer.FullCaptureTotals | internal/analyzer/analyzer.go:74-105 | the totals of a capture of everything and those of what it leaves out make up the retained totals; nothing is left out exactly when every retained aggregate is in reach |
| Analyzer.PolledTotals | internal/analyzer/analyzer.go:74-105 | over any steadily polled run the reported totals fall short by at most one straddling interval per family, and by nothing once there are rollups |
| SensorDeltas.KernelSensor.Snapshot | internal/sensor/sensor_linux.go:471-515 | sums the CPUs and reports the difference to the previous reading |
| SensorDeltas.DeltasTelescope | internal/sensor/sensor_linux.go:573-578 | intervals over successive readings add up to exactly what was counted between first and last |

## Left out
- RecorderBudget.RunWithinBudget: needs the accepted metrics to be contiguous per family over the four families; RecorderPolling.PollingWithinBudget asks it of the offered ones, and without either the bound is false, as RecorderOverrun.GapsOverrunBudget shows.
- SnapshotCoverage.PolledCaptureLeavesStraddlers: steady polling means that the clock never goes back, a metric is offered at its end, starts never go back and a family's intervals do not overlap, as the polling loop guarantees.
- RecorderExpiry.AdvanceExpiresExactly: what folding and eviction then do under budget pressure is the subject of RecorderConservation.
- SnapshotSpec.RunSnapshotAgrees: assumes metric intervals do not start before the recording, which the polling loop guarantees.
- AutomaticCapture.EveryCaptureIsReadable: JSON encoders and decoders are parameters assumed inverse to each other; that the writer's size limit suffices for every history is not claimed. A triggering interval that the recorder refused, expired or evicted is not in the capture.
- IncidentHistory.WindowsTold: every metric of a poll covers the time since the poll before, as the sensors report it.
- PolledCapture.PolledCapturesAreComplete: a poll brings at most one metric of each family, as the sensors do.
- Lease.SendsNeverBlock: the controller is reduced to whether an incident is pending or being written; AutomaticWriter joins it to the windows of ControllerRuns.
- AutomaticWriter.BoundaryFollowsPaths: a save's work on the directory is one step of the joint system, since only the writer and outside removals touch the directory meanwhile.
- MergedInterval.MergedPastTheWindow: the run uses a budget of 3300 bytes and a clock of single nanoseconds; the daemon's budget needs as many more polls to be under pressure.
- Correlation.FirstCoincidence: asks for a timeline sorted by time, which its caller establishes by sorting.
- ContainerReader.Read: compression and tar parsing are a list of entries with a flag for intact framing; an archive over the byte limit is refused after the entry loop rather than inside it; entry names are values, so zero padding and name scanning are not modelled.
- SegmentJson.Decoder.DecodeSegment: splitting text into tokens is the library's; its tokenizer stops at the first syntax error, so a malformed text is the beginning of a well-formed one's tokens.
- SegmentJson.SegmentMeans: assumes that no name compares the same to two of the four known ones, as case folding does.
- DetailQuota.QuotaOverRuns: N counts the handlers that can be in flight at once, and a handler is assumed to take under two seconds from reading its timestamp.
- BudgetSweep.SweepsKeepRoom: inserting into a map with a free slot succeeds.
- BlockTiming.VerdictExact: handlers are atomic, replacing an existing key succeeds and the kernel clock is never zero.
- RunnableWait.WaitExact: handlers are atomic, replacing an existing key succeeds, and becoming runnable means as observed since the program was attached.
- Store.QuotaOverRuns: counts published captures; partial staging files, which the next scan removes, and writers outside the lock are not modelled, while outside removals are.
- Store.Save: others may remove files after the scan, while the capture is staged and published, and when rotation reaches a file; the new capture's name is one that the scan did not list.
- AutomaticCapture.TurnHolds: the loop's draining of queued details appears as single details; the query path of the loop is in Lease.
- Percentile.Percentile: when the bucket counts sum to 2 to the 64 or more, the report follows the wrapped counts.
- Analyzer.FullCaptureTotals: the capture ends at or after every retained aggregate; the availability text of a family is not modelled.
- SensorDeltas.DeltasTelescope: is about counters that do not wrap between readings.
- Event fields that no rule reads (CPU, device, ports, socket state, byte counts) and report text are not modelled; structure sizes are the 224 bytes of a 64-bit build.
- Counters of the kernel maps, drops and evictions are unbounded; covered time is an integer.
- Incidents are values: the source's pointers are copied before hand-over and never shared.
- Timers, retry intervals, write timeouts, logging and health text are not modelled.
- Wall-clock anchoring, process metadata, the socket server, configuration loading and rendering are not modelled.
- TCP and OOM programs, wire decoding and eBPF loading have no state machine beyond the shared quota and are not modelled.

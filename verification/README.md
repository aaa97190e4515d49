# IntruderWatch verification model

A Dafny model of the parts of IntruderWatch whose correctness is not visible from one function: the macroblock motion
detector, the pooled frame pipeline and ingestion loop of the Go frame capturer, the live-snapshot overlay, and the
alert path in Python (drop-oldest dispatcher, detector callback, cooldown service). `dafny verify dfyconfig.toml`
checks everything.

## How it is built

| file | models | main results |
|---|---|---|
| `Common.dfy` | row-major addressing, options, boxes | |
| `Zones.dfy` | exclusion zones, from parsed items to the block test | a tuple, and a whole list, masks exactly its own pixels, and when it does not |
| `Motion.dfy` | the detector: mask, SAD scan, box, lighting check, reference frame | exact answers, no slow escape, mask non-interference, partition of the covered region |
| `Pipeline.dfy` | frame items, pool, channel of two, worker | one owner per item, items in flight are frozen |
| `Ingestion.dfy` | supervision loop × worker × signal handler × runtime, as an interleaved machine | conservation, session freshness, post-roll, rate bound over all runs |
| `Engine.dfy` | capturer and loop as objects; every method is one step of that machine, and a service keeps the run they form | refinement, laws of runs on the objects |
| `Snapshot.dfy` | snapshot manager and overlay painter on a byte array | luminance only, idempotent, ink inside its zone, and when it is not |
| `AlertDispatcher.dfy` | drop-oldest queue with its worker, publish with retry | order, accounting, bounded work, bounded loss under every interleaving |
| `HumanDetector.dfy` | message callback: warm-up, deduplication, inference, five acknowledgement sites | one acknowledgement on every path, laws of every delivery history, exact condition for distinct alerts |
| `AlertService.dfy` | ntfy cooldown per camera, call cooldown over all | the greedy dispatches are a largest possible selection |

Code that updates state in place is a class or an array method, proved against a specification over values: a
predicate fixing the one right answer (`Motion.Analysed`), a machine whose runs are all interleavings
(`Ingestion.Run`, `AlertDispatcher.Run`), or the whole message history (`HumanDetector.History`,
`AlertService.Handled`). The laws are then proved of the specification. Clocks, the outcome of reads, encodings,
publishes, acknowledgements, the pool's choice of an item and the scheduler are parameters, so a law over all runs
holds for all of them.

Where code and its documentation disagree, the model follows the code:

- `microservices/ARCHITECTURE.md:151` promises one global cooldown of 60 s and `README.md:219` a per-camera
  `ALERT_COOLDOWN` of 60 s; the code has a per-camera `NTFY_COOLDOWN` (default 60) and a global `ALERT_COOLDOWN`
  (default 90) for calls only.
- The comment at `microservices/frame_capturer/snapshot.go:107` says grid lines have Y = 255; the code writes 240.
- `microservices/human_detector/human_detector.py:101` says the latest detection is never lost. That is so for the
  alert being submitted, but an older alert can be evicted although the worker has just made room
  (`AlertDispatcher.NeedlessEvictionExample`).

Properties that hold only under a condition, each with the condition proved exact or with a counterexample:

- A tuple without area that runs strictly through a block masks that block although it denotes no pixel
  (`Zones.TupleMasksExactly`, `Zones.StrayLineExample`). A whole list is masked exactly when such lines run only through
  blocks other items have pixels in (`Zones.ListMasksExactly`).
- The overlay of a zone stays inside the zone exactly when its spans leave room for the four-pixel border; a tuple
  outside the frame masks nothing but paints a frame edge (`Snapshot.InkInsideIffFits`,
  `Snapshot.OffFrameTupleIsPainted`).
- Consecutive alerts of a camera carry different hashes exactly when text hashes are not mixed with true values that
  cannot be sliced (`HumanDetector.AlertsDifferIffUnmixed`).
- Dispatches are a largest selection as long as no clock reading falls below the dispatch before it
  (`AlertService.GreedyIsOptimal`). Told from the clock alone: if it may be set back by up to d, they are a largest
  selection for every sequence of readings exactly when d is 0 (`AlertService.OptimalIffNeverSetBack`).

## Model

| member | source | states |
|---|---|---|
| `Zones.NormaliseTuple` | microservices/frame_capturer/config.go:136-154 | ordering and clamping keep exactly the tuple's pixels that lie in the frame, whichever way its corners are given |
| `Zones.ParseExcludeZones` | microservices/frame_capturer/config.go:97-167 | the zones are those of the items in their order, and cover exactly the frame pixels some item stands for |
| `Zones.ZonesItemByItem` | microservices/frame_capturer/config.go:111-161 | one more item appends exactly its own zone: the four presets by their numbers, the normalised tuple, nothing for anything else |
| `Zones.HitIffSharedPixel` | microservices/frame_capturer/motion.go:54-55 | for a non-empty zone the overlap test says whether block and zone share a pixel |
| `Zones.TupleMasksExactly` | microservices/frame_capturer/config.go:128-161 | a tuple masks exactly the blocks holding one of its pixels, if and only if it is not a line through the inside of a block |
| `Zones.StrayLineExample` | microservices/frame_capturer/motion.go:55 | 10,10,10,20 has no pixel and masks the first block |
| `Zones.ListMasks` | microservices/frame_capturer/config.go:97-167 | a configured list of presets and tuples, off-frame ones included, masks the blocks its items have pixels in and those its lines without area run through |
| `Zones.ListMasksExactly` | microservices/frame_capturer/config.go:97-167 | the mask of a list is the one its pixels ask for, on every block, if and only if each line without area runs only through blocks other items have pixels in |
| `Motion.MacroblockDetector.constructor` | microservices/frame_capturer/motion.go:32-84 | the mask is the overlap test of every block against every zone; block size defaults to 32; the effective count is valid |
| `Motion.MaskIsZoneCover` | microservices/frame_capturer/motion.go:45-62 | for any zones, overlapping, empty or inverted, a block is masked exactly when it shares a pixel with a zone or a zone without pixels overlaps it |
| `Motion.BuildDetector` | microservices/frame_capturer/main.go:93-115 | from the configured items to the detector in use: block i is masked exactly when the items ask for it |
| `Motion.MacroblockDetector.FillMask` | microservices/frame_capturer/motion.go:45-62 | the masked count is the number of masked blocks, however many zones hit one of them |
| `Motion.MacroblockDetector.Analyze` | microservices/frame_capturer/motion.go:88-195 | over any run of Analyze and Reset the answer is the right one for this frame and the frame analysed last since Reset, and this frame becomes the reference; motion, lighting and box follow from the active count by the configured limits |
| `Motion.MacroblockDetector.Reset` | microservices/frame_capturer/motion.go:198-200 | the next frame is answered as a first frame; parameters and mask stay |
| `Motion.AnalysedUnique` | microservices/frame_capturer/motion.go:88-195 | the answer is a function of the parameters and the two frames |
| `Motion.ReportedBoxIsExact` | microservices/frame_capturer/motion.go:143-184 | a reported box is the smallest one holding every active block, non-empty and inside the frame |
| `Motion.BoxInsideFrame` | microservices/frame_capturer/motion.go:176-181 | the box ends inside the covered region, so the clamps never change it |
| `Motion.BlockReadsInBounds` | microservices/frame_capturer/motion.go:124-129 | every sample a block reads is inside the plane |
| `Motion.PixelHasOneBlock` | microservices/frame_capturer/motion.go:110-127 | every pixel of the covered region is read by exactly one block |
| `Motion.BlocksPartitionRegion` | microservices/frame_capturer/motion.go:110-136 | the block sums add up to the difference of the whole covered region, each at most 255 per pixel |
| `Motion.ActiveWithinEffective` | microservices/frame_capturer/motion.go:164-166 | never more active than effective blocks, so the lighting ratio lies in 0..1 |
| `Motion.NoSlowEscape` | microservices/frame_capturer/motion.go:122-144 | a block that drifts by n thresholds over n+1 frames is active in one of the n comparisons |
| `Motion.SlowDriftIsReported` | microservices/frame_capturer/motion.go:138-162 | the same for the detector's answers: one of the n reports an active block and a delta above the threshold |
| `Motion.MaskNonInterference` | microservices/frame_capturer/motion.go:110-194 | two runs that agree on the unmasked blocks get the same answers, whatever excluded zones and leftover strips show |
| `Motion.ShiftedMad` | microservices/frame_capturer/motion.go:122-138 | if every sample of a block moves by delta, its mean absolute difference is delta or -delta, whichever is not negative |
| `Motion.UniformShiftSuppressed` | microservices/frame_capturer/motion.go:138-168 | a uniform change of brightness activates every unmasked block when its size reaches the threshold and none otherwise; the first is rejected as lighting exactly when the ratio is at most 1 |
| `Pipeline.Places` | microservices/frame_capturer/pipeline.go:88-114 | every allocated item is reachable from exactly one of loop, channel, worker, pool and collector |
| `Pipeline.AtMostFourOutside` | microservices/frame_capturer/pipeline.go:59 | at most four items are out of the pool |
| `Pipeline.ActKeepsOwned` | microservices/frame_capturer/pipeline.go:89-137 | no operation of loop, worker or runtime breaks single ownership |
| `Pipeline.ActKeepsBounds` | microservices/frame_capturer/pipeline.go:104-114 | the channel keeps its capacity, and only borrowing gives the loop an item |
| `Pipeline.FlightIsFrozen` | microservices/frame_capturer/pipeline.go:88-114 | nothing but receive and release touches an item that is queued or being encoded |
| `Pipeline.Pipeline.AcquireFrame` | microservices/frame_capturer/pipeline.go:89-94 | the picked pooled item or a fresh one, with box and post-roll mark cleared |
| `Pipeline.Pipeline.ReleaseFrame` | microservices/frame_capturer/pipeline.go:97-100 | the caller's item is back in the pool without a box, every other item is as it was |
| `Pipeline.Pipeline.Submit` | microservices/frame_capturer/pipeline.go:104-114 | the item is queued last exactly when fewer than two are queued, and is otherwise back in the pool |
| `Pipeline.Pipeline.Stamp` | microservices/frame_capturer/main.go:293-302 | exactly the held item gets time, number, mark and box |
| `Pipeline.Pipeline.Receive` | microservices/frame_capturer/pipeline.go:123-127 | the worker gets the oldest queued item |
| `Pipeline.Pipeline.ProcessFrame` | microservices/frame_capturer/pipeline.go:133-194 | the item is given back on every path; something is published exactly when everything succeeds, with the picture, the box and the post-roll mark of the item |
| `Ingestion.ScheduleIsClockArc` | microservices/frame_capturer/config.go:170-177 | the schedule is the clock arc from start to end, both included, also over midnight |
| `Ingestion.EveryRunIsSafe` | microservices/frame_capturer/main.go:177-340 | the invariants behind the following rows hold after every interleaving |
| `Ingestion.OneOwnerAlways` | microservices/frame_capturer/main.go:222-316 | in every run each item has one owner and at most four are out of the pool |
| `Ingestion.FramesAreConserved` | microservices/frame_capturer/main.go:236-316 | captured = skipped by reason + queued + with the worker + sent + failed between iterations, each skip counter counting exactly its own reason; sequence numbers = accepted + backpressure drops |
| `Ingestion.PublishedAsSubmitted` | microservices/frame_capturer/main.go:292-316 | a published item is the accepted one, frame and time unchanged, and sequence numbers strictly increase |
| `Ingestion.AnalysesStayInSession` | microservices/frame_capturer/main.go:203-231 | every analysis compares with the frame analysed last in the same capture session |
| `Ingestion.SessionsEnd` | microservices/frame_capturer/main.go:203-209 | a lost broker, the end of the schedule and a failed read leave neither process nor reference, and every later frame belongs to a later session than every earlier one |
| `Ingestion.NoSessionAfterCancel` | microservices/frame_capturer/main.go:167-173 | once told to stop, the program begins no capture session |
| `Ingestion.LogIsWhatWasRead` | microservices/frame_capturer/main.go:212-237 | captured counts the reads, and the k-th frame dealt with is the k-th plane read, at the time of its iteration |
| `Ingestion.OutcomesAreCounted` | microservices/frame_capturer/pipeline.go:147-185 | each outcome of the worker is counted in its own counter |
| `Ingestion.SlowDriftIsSeen` | microservices/frame_capturer/main.go:254-262 | in every run, among n+1 consecutive analyses of a session a block that drifts by n thresholds is reported active by one of the n comparisons |
| `Ingestion.SubmittedIffRecentMotion` | microservices/frame_capturer/main.go:264-302 | an analysed frame is submitted exactly when it is no lighting shift and it or a frame at most the post-roll earlier had motion; skipped as lighting shift exactly when analysed as one, as duplicate exactly when there was neither; marked post-roll exactly when it had no motion |
| `Ingestion.SubmittedBoxIsLatest` | microservices/frame_capturer/main.go:277-302 | it carries the box of the latest frame with motion |
| `Ingestion.AcceptedTells` | microservices/frame_capturer/main.go:292-316 | an accepted item holds the frame captured at its entry, the mark of its having no motion and the box of the latest frame with motion |
| `Ingestion.RateLimitIsExact` | microservices/frame_capturer/main.go:248-252 | a frame is rate-limited exactly when an accepted, duplicate or lighting-shift frame lies less than the interval back, reconnects included |
| `Ingestion.RateBound` | microservices/frame_capturer/main.go:179-188 | any window of length T holds at most T / interval + 1 accepted frames |
| `Engine.StreamCapturer.Start` | microservices/frame_capturer/capture.go:31-82 | a running capturer is left alone, a cancelled one starts nothing, a started one is a new session |
| `Engine.StreamCapturer.ReadFrame` | microservices/frame_capturer/capture.go:85-101 | a frame comes from the open process or not at all |
| `Engine.StreamCapturer.Stop` | microservices/frame_capturer/capture.go:104-125 | no process, no pipe, whether or not it was running |
| `Engine.RunMeetsPreconditions` | microservices/frame_capturer/main.go:190-340 | what the engine's methods require holds in every run |
| `Engine.RunGrows` | microservices/frame_capturer/main.go:190-340 | a method call that is a possible step prolongs a run, so the laws of runs hold of the engine |
| `Engine.Engine.Cancel` | microservices/frame_capturer/main.go:168-171 | the cancel step and nothing else |
| `Engine.Engine.SignalStop` | microservices/frame_capturer/main.go:172 | the handler stops the capturer without touching detector or loop |
| `Engine.Engine.StopAndReset` | microservices/frame_capturer/main.go:203-209 | capturer stopped and reference dropped together |
| `Engine.Engine.SleepOutsideSchedule` | microservices/frame_capturer/main.go:322-335 | outside the schedule the capturer is stopped and the reference dropped; lastMotionTime stays |
| `Engine.Engine.StartCapture` | microservices/frame_capturer/main.go:212-219 | an iteration goes on exactly when the capturer runs or could be started |
| `Engine.Engine.Borrow` | microservices/frame_capturer/main.go:221-222 | the machine's borrowing step on the objects: the loop holds a pooled or a fresh item |
| `Engine.Engine.ReadFrame` | microservices/frame_capturer/main.go:223-237 | a frame read is counted and held; otherwise item, process and reference are all given up |
| `Engine.Engine.HandleFrame` | microservices/frame_capturer/main.go:247-316 | from rate limit to Submit the objects end where the machine's step ends, with the detector's right answer |
| `Engine.Engine.SendFrame` | microservices/frame_capturer/main.go:276-316 | a dispatched frame ends where the machine's step ends: accepted, or dropped for backpressure |
| `Engine.Engine.WorkerReceive` | microservices/frame_capturer/pipeline.go:123-127 | the worker's step |
| `Engine.Engine.WorkerProcess` | microservices/frame_capturer/pipeline.go:133-194 | one outcome is counted, the item is given back, and what is published has its picture, box and mark |
| `Engine.Service.constructor` | microservices/frame_capturer/main.go:176-188 | a fresh engine is at the start of a run |
| `Engine.Service.Iterate` | microservices/frame_capturer/main.go:201-336 | exactly the steps of one turn of the inner loop, by case: broker lost, outside the schedule, no start, failed read, or a frame captured and judged, with captured up by one only then |
| `Engine.Service.HandleFrame` | microservices/frame_capturer/main.go:247-316 | a captured frame is dealt with by one step of the run, without further assumptions on the state |
| `Engine.Service.WorkerProcess` | microservices/frame_capturer/pipeline.go:133-194 | what is published is the frame captured at the oldest unfinished accepted entry, marked post-roll exactly when it had no motion, with the box of the latest frame with motion |
| `Engine.Service.CountersBalance` | microservices/frame_capturer/main.go:236-316 | between iterations the counters, the channel and the worker of the running program account for every captured frame |
| `Engine.Service.NothingIsShared` | microservices/frame_capturer/pipeline.go:88-114 | in the running program channel and pool never hold the same object, nor one of them twice |
| `Snapshot.InkOrPicture` | microservices/frame_capturer/snapshot.go:104-160 | a marked pixel is bright whatever was below it, any other pixel shows the picture |
| `Snapshot.InksByNumber` | microservices/frame_capturer/snapshot.go:104-160 | 240 at positive multiples of 200, on top 255 along the edges and 220 on the diagonals of the zone drawn last |
| `Snapshot.OverlayIsIdempotent` | microservices/frame_capturer/snapshot.go:104-160 | drawing twice is drawing once, pixel by pixel |
| `Snapshot.SnapshotManager.RedrawChangesNothing` | microservices/frame_capturer/snapshot.go:104-160 | the same for the whole buffer, byte by byte |
| `Snapshot.InkInsideIffFits` | microservices/frame_capturer/snapshot.go:129-158 | no pixel outside a zone is painted for it if and only if its spans leave room for the border |
| `Snapshot.OffFrameTupleIsPainted` | microservices/frame_capturer/snapshot.go:141-148 | 5000,100,6000,200 covers no pixel and is painted at the right edge |
| `Snapshot.OutsideUnchanged` | microservices/frame_capturer/snapshot.go:104-160 | with zones that fit, pixels off the lines and outside all zones keep their value |
| `Snapshot.ParsedZonesArePaintable` | microservices/frame_capturer/config.go:111-161 | on frames of at least 480 by 96 the parser yields only zones the painter can take |
| `Snapshot.DrawGrid` | microservices/frame_capturer/snapshot.go:107-117 | exactly the coordinate lines are written, in the luminance plane only |
| `Snapshot.DrawBorder` | microservices/frame_capturer/snapshot.go:129-149 | the four passes write exactly the border, cut off at the frame |
| `Snapshot.DrawHatch` | microservices/frame_capturer/snapshot.go:151-158 | exactly the diagonals inside the border are written |
| `Snapshot.SnapshotManager.DrawVisualOverlay` | microservices/frame_capturer/snapshot.go:104-160 | every pixel ends as grid and zones, later zones on top, ask for; no chroma byte changes |
| `Snapshot.SnapshotManager.UpdateRaw` | microservices/frame_capturer/snapshot.go:44-49 | as many bytes as both buffers have are replaced, the rest stay |
| `Snapshot.SnapshotManager.GetSnapshot` | microservices/frame_capturer/snapshot.go:61-101 | an error exactly when nothing came yet, the cache exactly when it may be served, else a picture with the stored chroma; nothing stored changes |
| `Snapshot.SnapshotManager.Render` | microservices/frame_capturer/snapshot.go:66-92 | the overlay goes into a copy, never into the stored frame |
| `AlertDispatcher.QueueIsSuffix` | microservices/human_detector/human_detector.py:94-109 | the queue is the unremoved end of the submissions, within its bound; every earlier alert left once, delivered or evicted |
| `AlertDispatcher.DeliveriesKeepOrder` | microservices/human_detector/human_detector.py:150-174 | the worker handles alerts in the order they were submitted |
| `AlertDispatcher.TasksAreAccounted` | microservices/human_detector/human_detector.py:102-174 | unfinished tasks = queued + with the worker + evicted but not yet marked, so task_done never fails; no alert is unaccounted for |
| `AlertDispatcher.SubmitIsBounded` | microservices/human_detector/human_detector.py:95-109 | at most two puts, one eviction and four accesses per submit, which ends with its alert queued |
| `AlertDispatcher.DropsAreBounded` | microservices/human_detector/human_detector.py:99-109 | no more evictions than submissions beyond the bound |
| `AlertDispatcher.EvictionNeededIff` | microservices/human_detector/human_detector.py:99-103 | an eviction meets a full queue exactly when the worker took nothing since Full was seen |
| `AlertDispatcher.NeedlessEvictionExample` | microservices/human_detector/human_detector.py:99-103 | a schedule in which an alert is evicted although there is room |
| `AlertDispatcher.AlertDispatcher.Submit` | microservices/human_detector/human_detector.py:94-109 | against any moves of the worker the loop ends with the new alert last in the submission order and at most one old alert evicted |
| `AlertDispatcher.AlertDispatcher.TaskDone` | microservices/human_detector/human_detector.py:103 | task_done never raises |
| `AlertDispatcher.AlertDispatcher.EnsureChannel` | microservices/human_detector/human_detector.py:127-130 | both links are open afterwards, or connecting was needed and failed |
| `AlertDispatcher.AlertDispatcher.PublishWithRetry` | microservices/human_detector/human_detector.py:132-148 | published once if any attempt within the limit gets through, else not at all; sleeps lie between attempts; links end both open or both absent |
| `AlertDispatcher.AlertDispatcher.HandleNext` | microservices/human_detector/human_detector.py:150-174 | one turn takes the oldest alert and marks it done on every path |
| `HumanDetector.DetectorService.Callback` | microservices/human_detector/human_detector.py:238-348 | on every path one or two acknowledgements are attempted and exactly one succeeds unless all fail; model calls, recorded hashes and alerts change exactly for unseen messages past thirty, with somebody in the picture where an alert or a hash is due |
| `HumanDetector.DetectorService.Handle` | microservices/human_detector/human_detector.py:246-265 | warm-up and deduplication with their acknowledgements: which maps and counters move, and when an exception leaves |
| `HumanDetector.DetectorService.Recognise` | microservices/human_detector/human_detector.py:265-340 | decoding, model call, recording and submission with their acknowledgements: the model is called, the hash recorded and the alert submitted exactly where the handling says |
| `HumanDetector.WarmupIsThirty` | microservices/human_detector/human_detector.py:247-254 | a delivery is warm-up exactly when fewer than thirty proper messages of its camera came before; then frame counter, model calls and alerts stay, otherwise it is counted |
| `HumanDetector.AlertsAreForPeople` | microservices/human_detector/human_detector.py:259-336 | in every history: the model sees exactly the decodable, unseen pictures past the warm-up; an alert is raised exactly when it finds somebody and the hash can be cut, a hash recorded exactly when it finds somebody and the hash is true |
| `HumanDetector.AcknowledgedOnce` | microservices/human_detector/human_detector.py:340-348 | in every history: one or two attempts per delivery, a second only after a failed one in the try block, and one success unless all attempts fail |
| `HumanDetector.RecordedHashesDiffer` | microservices/human_detector/human_detector.py:259-316 | hashes recorded one after the other for a camera differ |
| `HumanDetector.AlertsDifferIffUnmixed` | microservices/human_detector/human_detector.py:259-336 | consecutive hashed alerts of a camera differ in every run over given hashes if and only if text is not mixed with true values that are no text |
| `HumanDetector.MixedRun` | microservices/human_detector/human_detector.py:314-324 | the run that shows the condition is needed |
| `HumanDetector.CamerasAreIsolated` | microservices/human_detector/human_detector.py:247-316 | leaving out the other cameras changes nothing for a camera |
| `HumanDetector.RedeliveryRaisesNoSecondAlert` | microservices/human_detector/human_detector.py:259-263 | a message that raised an alert raises none when delivered again, if and only if its hash is true, however many deliveries of other cameras, or of this one without a recorded hash, lie between |
| `AlertService.StaysAhead` | microservices/alert_service/alert_service.py:289-292 | while no reading falls below the dispatch before it, greedy has after every arrival selected more than any spaced selection, or as many and the last no later |
| `AlertService.GreedyIsOptimal` | microservices/alert_service/alert_service.py:289-313 | the selection is spaced and, while no reading falls below the dispatch before it, no spaced selection is larger |
| `AlertService.OrderedNeverBelowLast` | microservices/alert_service/alert_service.py:264-292 | nondecreasing readings are such readings |
| `AlertService.OptimalIffNeverSetBack` | microservices/alert_service/alert_service.py:264-313 | with a clock that may be set back by up to d, every sequence of readings gives a largest selection if and only if d is 0 |
| `AlertService.NoSpacedSelectionIsLarger` | microservices/alert_service/alert_service.py:289-313 | with clock readings beyond the first cooldown, none that is only pairwise spaced is larger either |
| `AlertService.PickedApart` | microservices/alert_service/alert_service.py:291 | dispatches are more than the cooldown apart, even when the clock jumps |
| `AlertService.ClockSetBackExample` | microservices/alert_service/alert_service.py:264-291 | with a clock set back, three legal dispatches are lost |
| `AlertService.NtfyIff` | microservices/alert_service/alert_service.py:289-302 | whatever the clock does, an alert is sent to ntfy exactly when it comes more than the cooldown after time 0 and after every message sent for its camera |
| `AlertService.CallIff` | microservices/alert_service/alert_service.py:304-318 | the same for calls over all cameras, and none when they are disabled |
| `AlertService.NtfyIsOptimal` | microservices/alert_service/alert_service.py:289-302 | a camera's ntfy messages are a largest selection from its alerts |
| `AlertService.CallsAreOptimal` | microservices/alert_service/alert_service.py:304-318 | the calls are a largest selection from all alerts |
| `AlertService.CamerasAreIsolated` | microservices/alert_service/alert_service.py:289-302 | leaving out the other cameras changes no ntfy decision of a camera |
| `AlertService.EveryAlertIsAccounted` | microservices/alert_service/alert_service.py:289-318 | sent + calls + suppressed = alerts, or twice the alerts when calls are enabled |
| `AlertService.AlertService.CountersBalance` | microservices/alert_service/alert_service.py:283-318 | the same for the service's counters, up to the alert that ended the consumer |
| `AlertService.AlertService.Callback` | microservices/alert_service/alert_service.py:262-320 | unreadable fields count as an alert of "unknown"; a body that is no object or a camera that cannot be looked up ends the consumer; every other alert is decided as its history asks |

## Left out

- Floating point: mean differences, the lighting ratio, the thresholds and the alert times are `real`. For block sizes that are powers of two the mean difference is exact in the source as well.
- Integer width: 64-bit counters, coordinates and durations are unbounded integers.
- Text: splitting, trimming, lower-casing and number parsing of exclusion zones happen before the model; its input are the classified items. Schedule strings and environment variables are read before it, too.
- Frame buffer bytes: a frame item holds one value, the luminance plane, which a read replaces as a whole; a half-read buffer holds no frame.
- Ingestion.ScheduleIsClockArc: for start and end inside one day; `parseSeconds` also accepts values such as 24:00:00, whose schedule `IsWithinTimeFrame` computes the same way but which are no points of the clock face.
- Chroma in the pipeline: encoding is one outcome per item, so the chroma planes matter only in the snapshot.
- JPEG, SHA-256, base64, JSON, image decoding and YOLO: opaque outcomes.
- FFmpeg, pipes, HTTP, RabbitMQ, Twilio, ntfy, Prometheus and logging: outcomes and counters only; a publish that raises counts as not published.
- Failed JSON marshalling has no metric in the source; the model counts it so that every frame is accounted for.
- Sleeps, heartbeats, `lastFrameTime` and the health checks: no effect on the modelled state.
- Broker connection and close: the loop may meet a lost broker at any iteration.
- Freshness of the cached JPEG: raw updates move the time the cache is judged by, so the source does not promise it; `GetSnapshot` states the test it makes.
- Locks: the snapshot manager's methods are atomic. Items queued when the worker exits stay queued and are accounted for there.
- Painter order: the two edges of a border pass, the grid columns and the hatch rows are methods of their own.
- Presets on small frames: `Snapshot.ParsedZonesArePaintable` asks for 480 by 96; below that the source computes negative corners.
- Hash values and camera names up to Python equality: NaN, and cameras that differ as keys but share a metric label, are not modelled.
- A failing acknowledgement in the alert service, and JSON numbers whose conversion overflows: both end the consumer like a body that is no object.
- `WorkerMoves` and `HandleNext`: the first is the worker as the submitter sees it, the second one undisturbed turn of the worker; their accesses interleave freely only in the machine.
- `frame_capturer.py`, `monolith/`, the viewer service and the web pages: superseded, or endpoints over libraries.

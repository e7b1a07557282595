# Verified models of Piik's scheduling, routing, capture and framing logic

Piik shares a screen with many viewers. Some viewers relay what they receive, so the system has to decide
which qualities to encode, which routes to accept, how media enters from a phone and how all this is measured.
This project models nine self-contained parts of it in Dafny and proves properties over every input, every
interleaving or every run. Each part is one module, named after what it does:

| module | models | main results |
|---|---|---|
| `EncodedVariants` | the per-frame encoder scheduler | every child's stream is a decodable chain; closed-form encode counts; an assert fires exactly when a child turns to the forwarded layer in a phase that starts inside an ingress GOP |
| `OverlayGraph` | depth search and descendant search over possibly cyclic parents | the memoised search computes the one depth map; the queue search finds exactly the descendants, nearest first; the two agree |
| `RouteTransition` | the acceptor of prepare and active route updates | exactly which updates are accepted and committed, agreement per revision, idempotent re-delivery, monotone revisions, well-formed committed routes |
| `ResourceSummary` | interval accounting of processes and pages | averages never exceed peaks; a valid interval conserves CPU time |
| `CaptureSpec`, `CaptureLaws`, `CaptureOrder`, `CaptureCalls`, `MobileCapture` | mobile capture streams and their registry | bounded FIFO, strictly increasing capture clock, one platform stop per stream, the first terminator decides how reading ends, exactly when coded frames follow a Status and units a Begin, exactly which calls close a stream and what the others add |
| `RotatingLog`, `LineWriter` | the bounded diagnostic history and the line splitter | with failures at any step the files hold a suffix of everything written; any chunking gives the batch result; private keys stay redacted |
| `PcapFlows` | the capture-file parser and the media-path check | parsing is the group-by of the records written; totals are conserved; parsing appended records merges flows |
| `CaptureFraming` | the SMED frame writer and incremental decoder | written frames arrive exactly, through any cutting of the stream |
| `CdpConnection`, `MediaCopyAccounting` | the request multiplexer and the admission of media copies | calls do not interfere and settle exactly once; handoffs stay within three copies |

Code that changes things step by step is modelled by classes and loops in the same form. Each such method is
proved equal to a function on values, and the laws over whole runs are lemmas about that function. What each step
decides (an acceptance, a closing, a kind, an outcome, a marker found) is also stated by an exact condition in the
terms of its input: the bytes, the fields, the numbers.
`Common` and `Text` hold shared types and sequence functions, and decimal or hexadecimal numerals.

## Where a claim needs a condition

Some claims hold of the code only under a condition. Each is proved with that condition, and a concrete input
shows the other side.

* An assert of the worker's `deliver` fires exactly when a relay child switches to the forwarded layer in a phase
  that starts at an ingress packet that is no key (`FailsIffSomePhaseIsLate`). The relay's own input decoder has a
  condition of its own: its chain breaks exactly when a phase that needs it follows one that does not, or is the
  first, and starts at a packet that is no key (`InputBreaksIffSomePhaseIsLate`, `LateInputWithoutLateSwitch`).
  Phases of whole ingress GOPs rule out both.
* `earlierHistoryMayBeMissing` being false is a promise that the files hold everything if and only if opening
  noted earlier history (a current file that is not empty, or a backup it could see) or the backup was empty
  (`HistoryClaimHoldsIff`). It fails only when the backup is there and looking at it fails.
* A valid process interval compares the same processes if and only if the current identities are distinct, which
  the sampler checks (`ValidIntervalComparesSameProcesses`, `RepeatedIdentityHidesAnExit`).
* A capture time converts to nanoseconds exactly up to 9223372036854775 microseconds and wraps around above it
  (`NanosExactIff`, `NanosWrapsToNegative`).
* Coded frames follow a Status, on every run, as long as no format was committed without its Status going in, which
  takes a context that is done before the Status gets into the queue (`OnlyLostStatusBreaks`,
  `CancelledStreamCanSkipStatus`). A stream whose
  frames are in sequence stays so whatever happens next if and only if its Status went in, or it is closed, or no
  format was or can be committed (`StaysInSequenceIff`). The readiness that first commits a codec decides it, and
  answering true settles it for good (`FirstReadinessDecides`).
* An accepted access unit goes in only behind a Begin at its own time or later, whatever becomes of the two pushes,
  if and only if before the call the context is open with room in the queue, or such a Begin went in already
  (`UnitIsClockedIff`). Otherwise the end of the context can swallow the Begin and let the unit in
  (`CancelledStreamCanSkipBegin`).
* Written frames are all handled if and only if no status among them has a payload that does not parse. Those before
  the first such status are handled in any case (`WrittenFramesSurviveChunking`).
* With one page per peer, a root with a depth descends from itself if and only if its host descends from it, and
  there is such a root if and only if some host descends from itself (`RootDescendsIff`, `SelfDescentIff`). A host
  that names itself as its parent does (`SelfParentDescends`). With hosts that have no peer upstream it cannot happen
  (`DescendantDepths`), except to roots without a depth (`ViewersCanNameEachOther`).
* A line is redacted if and only if a BEGIN in the kept part of a line at or before it has met no kept END since
  (`RedactedIff`). A marker beyond the kept part is not seen (`MarkerBeyondTheLimitIsUnseen`).
* The armed timers are the pending calls' until a pending call gets a reply whose error message cannot be turned
  into a string. That call is then neither pending nor settled before its timer fires (`MatchedIff`,
  `UnprintableReplyStrands`).
* Retiring a child after a handoff gives its copy back only if its selection is not still carried
  (`HandoffReturns`).

## Model

| member | source | states |
|---|---|---|
| `EncodedVariants.PrepareIngress` | scripts/encoded-variants-worker.js:83-98 | the ingress holds a packet per input frame, the first of them a key |
| `EncodedVariants.Manage` | scripts/encoded-variants-worker.js:129-132 | after encoder management exactly the active layers are live, encoders that stay active are untouched, every new one has an identity never used before, and the creation count grows by the layers gained |
| `EncodedVariants.EncodeActive` | scripts/encoded-variants-worker.js:165-171 | one frame goes through each live encoder once; a layer asked for a key yields one |
| `EncodedVariants.DemandIsServed` | scripts/encoded-variants-worker.js:120-126 | every demanded layer is encoded, except the source layer at a relay, which is forwarded |
| `EncodedVariants.ActiveLayersIff` | scripts/encoded-variants-worker.js:119-126 | a layer is encoded if and only if it is demanded, or under the envelope policy at or below a demanded one, and a relay leaves out the source layer and every layer if it only forwards |
| `EncodedVariants.Deliver` | scripts/encoded-variants-worker.js:137-149 | delivery fails only for a demanded layer without a packet or a switch that meets no key |
| `EncodedVariants.ChildContinues` | scripts/encoded-variants-worker.js:127-149 | whatever feeds a child next, its chain stays decodable: a key, or the successor of what it decoded last from the same source |
| `EncodedVariants.SwitchFailsIffLate` | scripts/encoded-variants-worker.js:127-142 | a frame fails if and only if some child switches to a forwarded packet that is no key |
| `EncodedVariants.Offer` | scripts/encoded-variants-worker.js:115-174 | after managing and encoding a frame every child is offered a packet of its layer from that layer's own source, with a key requested for each switch |
| `EncodedVariants.RunFrame` | scripts/encoded-variants-worker.js:115-184 | one iteration fails exactly at a late switch, and otherwise extends both decodable streams and all counts by one frame |
| `EncodedVariants.Run` | scripts/encoded-variants-worker.js:100-192 | over any trace, role and policy no demanded encoding is ever missing; an assert stops the run at the first late switch and nowhere else; a completed run gave each child a decodable packet of its layer per frame, and its encode, create, decode and input counts have closed forms by phase |
| `EncodedVariants.FailsIffSomePhaseIsLate` | scripts/encoded-variants-worker.js:116-142 | a late switch occurs somewhere if and only if some phase of the trace switches to the forwarded layer at an ingress packet that is no key |
| `EncodedVariants.AlignedPhasesNeverFail` | scripts/encoded-variants-worker.js:116-184 | with phases of whole ingress GOPs no assert fires and each start of the input decoder meets a key |
| `EncodedVariants.MisalignedPhaseCanFail` | scripts/encoded-variants-worker.js:140-159 | a phase that cuts a GOP makes an assert fail |
| `EncodedVariants.InputDecodableIff` | scripts/encoded-variants-worker.js:150-160 | the relay decoder's own input chain is decodable if and only if each of its starts meets a key |
| `EncodedVariants.InputBreaksIffSomePhaseIsLate` | scripts/encoded-variants-worker.js:122-157 | that chain breaks if and only if some phase of a relay that encodes follows none that does and starts at an ingress packet that is no key |
| `EncodedVariants.LateInputWithoutLateSwitch` | scripts/encoded-variants-worker.js:150-157 | it can break in a run in which no assert fires |
| `EncodedVariants.IngressContinues` | scripts/encoded-variants-worker.js:150-152 | each forwarded packet is a key or follows the one forwarded before it |
| `EncodedVariants.FramesUsingTotal` | scripts/encoded-variants-worker.js:116-171 | frames that encode a layer number the phase length times the phases whose policy activates it |
| `EncodedVariants.StartsTotal` | scripts/encoded-variants-worker.js:129-132 | encoders are created once per activation edge between phases |
| `EncodedVariants.GainedCounts` | scripts/encoded-variants-worker.js:129-132 | the creations of a frame number the layers encoded now and not before |
| `EncodedVariants.HostEncodesOnDemand` | scripts/encoded-variants-worker.js:119-121 | a host encodes a layer in exactly the phases that ask for it, or under the envelope policy for it or one above |
| `EncodedVariants.RelayNeverEncodesSource` | scripts/encoded-variants-worker.js:122-126 | a relay encodes the source layer in no phase |
| `EncodedVariants.EnvelopeDominatesExact` | scripts/encoded-variants-worker.js:121 | for every set of layers the envelope policy encodes in at least as many phases as the exact policy |
| `EncodedVariants.WorkerLayerCount` | scripts/encoded-variants-worker.js:188-190 | the expected encode counts of the worker's own trace are instances of the closed form |
| `EncodedVariants.WorkerTotals` | scripts/encoded-variants-worker.js:191-192 | so are its expected 224 decodes and 128 input decodes |
| `OverlayGraph.DepthSearch.Resolve` | scripts/peer-assisted-benchmark.ts:1116-1133 | the recursive search ends on any graph, answers a depth exactly when the upstream chain reaches a host, and keeps every cache entry equal to the uncached hop count |
| `OverlayGraph.PeerDepths` | scripts/peer-assisted-benchmark.ts:1111-1136 | the result maps exactly the peers whose upstream chain reaches a host, to the exact hop count, below the number of peers |
| `OverlayGraph.DepthMapUnique` | scripts/peer-assisted-benchmark.ts:1111-1136 | there is only one such map, so the order of iteration does not matter |
| `OverlayGraph.DepthUnique` | scripts/peer-assisted-benchmark.ts:1116-1133 | a peer has at most one depth |
| `OverlayGraph.CycleHasNoDepth` | scripts/peer-assisted-benchmark.ts:1118-1121 | a peer on a cycle has no depth, which justifies giving up at a visited peer |
| `OverlayGraph.DepthBounded` | scripts/peer-assisted-benchmark.ts:1111-1136 | a depth is smaller than the number of peers |
| `OverlayGraph.ByPeerIsLast` | scripts/peer-assisted-benchmark.ts:1112-1114 | a peer's page is the last that names it, and pages without an id or with an empty one are no peer's |
| `OverlayGraph.Expand` | scripts/peer-assisted-benchmark.ts:3081-3092 | the inner loop appends exactly the children not found before |
| `OverlayGraph.DescendantsOf` | scripts/peer-assisted-benchmark.ts:3075-3095 | on any graph the search ends without duplicates and with exactly the peers whose parent chain passes through the root |
| `OverlayGraph.FoundIsNearest` | scripts/peer-assisted-benchmark.ts:3075-3095 | each peer is found by its least number of hops |
| `OverlayGraph.ChildOfIff` | scripts/peer-assisted-benchmark.ts:3082-3092 | a child is a non-empty id whose page names the parent as its upstream peer, whatever its role |
| `OverlayGraph.NearestFirst` | scripts/peer-assisted-benchmark.ts:3075-3095 | the order of the result is by distance from the root |
| `OverlayGraph.ReachingAddsDepth` | scripts/peer-assisted-benchmark.ts:1111-1136 | a parent chain adds its length to the depth of its end |
| `OverlayGraph.DescendantDepths` | scripts/peer-assisted-benchmark.ts:3075-3095 | with one page per peer and hosts without a peer upstream, a descendant of a root with a depth has the root's depth plus its distance, depths do not decrease along the result, and such a root is not its own descendant |
| `OverlayGraph.RootDescendsIff` | scripts/peer-assisted-benchmark.ts:3075-3095 | with one page per peer, a root with a depth descends from itself if and only if its host descends from it |
| `OverlayGraph.SelfDescentIff` | scripts/peer-assisted-benchmark.ts:3075-3095 | some root with a depth descends from itself if and only if some host does |
| `OverlayGraph.HostsHaveDepthZero` | scripts/peer-assisted-benchmark.ts:1121-1124 | the peers at depth zero are exactly the hosts |
| `OverlayGraph.ViewersCanNameEachOther` | scripts/peer-assisted-benchmark.ts:3082-3092 | two viewers that name each other have no depth and descend from themselves |
| `OverlayGraph.SelfParentDescends` | scripts/peer-assisted-benchmark.ts:3082-3092 | without that promise a root can descend from itself |
| `RouteTransition.CloneIsWellFormed` | scripts/peer-assisted-benchmark.ts:1712-1743 | whatever is cloned has valid distinct children within the cap and a consistent publication |
| `RouteTransition.CloneInverts` | scripts/peer-assisted-benchmark.ts:1712-1743 | an assignment written as a message is cloned back unchanged exactly when it is well formed |
| `RouteTransition.CloneIff` | scripts/peer-assisted-benchmark.ts:1712-1743 | any value is cloned to an assignment if and only if its fields spell it and it is well formed |
| `RouteTransition.OpaqueIdIff` | scripts/peer-assisted-benchmark.ts:1705-1710 | an opaque id is 8 to 128 letters, digits, hyphens and underscores |
| `RouteTransition.SameIsEqual` | scripts/peer-assisted-benchmark.ts:1745-1753 | the comparison of assignments decides equality |
| `RouteTransition.ParseRevision` | scripts/peer-assisted-benchmark.ts:1763-1771 | exactly the safe integers that are not negative are revisions |
| `RouteTransition.RouteObserver.ResetRouteTransition` | scripts/peer-assisted-benchmark.ts:1755-1761 | a reset forgets the transition and the committed route and keeps the recorded maximum |
| `RouteTransition.RouteObserver.AcceptRouteUpdate` | scripts/peer-assisted-benchmark.ts:1763-1800 | an update is accepted if and only if it is valid and newer, or repeats the planned assignment of its revision and does not go back from active to prepare; the state afterwards is the step function's |
| `RouteTransition.RouteObserver.HandleMessage` | scripts/peer-assisted-benchmark.ts:1863-1882 | the message handler computes the session function |
| `RouteTransition.NewerPrepareIsPlanned` | scripts/peer-assisted-benchmark.ts:1788-1800 | a heard prepare of a newer revision becomes the plan and leaves the committed route alone |
| `RouteTransition.ActiveIsCommitted` | scripts/peer-assisted-benchmark.ts:1776-1800 | a heard active update that is newer or repeats its plan is committed, and the recorded maximum covers its children |
| `RouteTransition.PrepareThenActiveCommits` | scripts/peer-assisted-benchmark.ts:1763-1800 | a prepare and then an active update of a new revision with one assignment end with it committed |
| `RouteTransition.OtherUpdatesAreRefused` | scripts/peer-assisted-benchmark.ts:1765-1783 | every other update, invalid, older, conflicting, late or unheard, changes nothing |
| `RouteTransition.SnapshotOpensSession` | scripts/peer-assisted-benchmark.ts:1863-1876 | an authentication forgets all but the recorded maximum and commits a valid snapshot |
| `RouteTransition.AuthenticatingSilences` | scripts/peer-assisted-benchmark.ts:1851-1857 | from sending an authentication to its answer route updates change nothing |
| `RouteTransition.StepKeepsInv` | scripts/peer-assisted-benchmark.ts:1763-1800 | an update keeps the relation between planned, committed and accepted state |
| `RouteTransition.RunKeepsInv` | scripts/peer-assisted-benchmark.ts:1763-1800 | after every run phase active means the committed pair is the planned pair, and a committed route is well formed and within the cap |
| `RouteTransition.RevisionsNeverDecrease` | scripts/peer-assisted-benchmark.ts:1763-1800 | within a session neither the accepted nor the committed revision ever decreases |
| `RouteTransition.AcceptedUpdatesAgree` | scripts/peer-assisted-benchmark.ts:1763-1800 | two updates accepted in one session with the same revision carry the same assignment, the snapshot that opens the session included |
| `RouteTransition.RedeliveryChangesNothing` | scripts/peer-assisted-benchmark.ts:1763-1800 | an accepted message delivered again, after anything else in the session, changes nothing, and neither does the opening snapshot as a route update |
| `RouteTransition.PrepareKeepsCommittedRoute` | scripts/peer-assisted-benchmark.ts:1784-1800 | a prepare never alters the committed route |
| `RouteTransition.CommittedRouteComesFromActive` | scripts/peer-assisted-benchmark.ts:1784-1800 | the committed route is lost only to a new session and replaced only by that of an accepted active update |
| `ResourceSummary.SampleProcesses` | scripts/peer-assisted-benchmark.ts:2717-2736 | the sampler returns every row, with unique identities, or nothing, exactly when a row is unusable or repeated |
| `ResourceSummary.IdentityInjective` | scripts/peer-assisted-benchmark.ts:2727 | the textual identity determines type and id, even of types with colons |
| `ResourceSummary.Compare` | scripts/peer-assisted-benchmark.ts:1393-1409 | the validity test decides the definition of a valid interval and sums the gains of its processes |
| `ResourceSummary.ValidIff` | scripts/peer-assisted-benchmark.ts:1398-1405 | over distinct identities an interval is valid if and only if time advances, the processes are the same, and no CPU time shrank |
| `ResourceSummary.ValidIntervalComparesSameProcesses` | scripts/peer-assisted-benchmark.ts:1398-1405 | a valid interval has equal identity sets if and only if its current identities are distinct |
| `ResourceSummary.RepeatedIdentityHidesAnExit` | scripts/peer-assisted-benchmark.ts:1398-1405 | with a repeated identity a vanished process goes unnoticed |
| `ResourceSummary.ValidIntervalConservesCpu` | scripts/peer-assisted-benchmark.ts:1398-1405 | over distinct identities the CPU time of a valid interval is the growth of the total, whatever the order of the lists |
| `ResourceSummary.SummarizeProcesses` | scripts/peer-assisted-benchmark.ts:1386-1428 | the summary accounts for exactly the valid intervals, valid and invalid intervals number one less than the samples, and the average does not exceed the peak |
| `ResourceSummary.AverageWithinPeak` | scripts/peer-assisted-benchmark.ts:1413-1425 | the ratio of sums never exceeds the largest ratio |
| `ResourceSummary.PercentOfWall` | scripts/peer-assisted-benchmark.ts:1413-1425 | utilisation is work per wall time in percent, of one interval and of all |
| `ResourceSummary.Judge` | scripts/peer-assisted-benchmark.ts:1514-1542 | an interval of a page is good only between two performance samples with positive wall time |
| `ResourceSummary.JudgeIff` | scripts/peer-assisted-benchmark.ts:1514-1548 | a page says nothing without samples, is bad with one alone or a counter that runs back, and else counts its task time |
| `ResourceSummary.RolesAre` | scripts/peer-assisted-benchmark.ts:1444-1447 | a host page is a host's, a sending viewer a relay, another a plain viewer |
| `ResourceSummary.BeforeIs` | scripts/peer-assisted-benchmark.ts:1508-1514 | a page is compared with the last page of its label in the sample before |
| `ResourceSummary.SummarizePages` | scripts/peer-assisted-benchmark.ts:1488-1563 | for each role the summary accounts for exactly that role's good and bad intervals, and its average does not exceed its peak |
| `CaptureSpec.NanosExactIff` | mobile/bridge/capture.go:292 | a capture time that is not negative converts exactly if and only if it is at most 9223372036854775 microseconds |
| `CaptureSpec.NanosWrapsToNegative` | mobile/bridge/capture.go:292 | just above that bound a capture time becomes negative |
| `CaptureLaws.PushKeepsQueue` | mobile/bridge/capture.go:201-208 | a push keeps delivered and queued frames equal to the push order, with at most eight queued |
| `CaptureLaws.ClockIncreases` | mobile/bridge/capture.go:236-253 | the reference clock strictly increases, ends at the highest time given, and has at most two times when the input becomes ready |
| `CaptureLaws.OpenStreamClock` | mobile/bridge/capture.go:285-303 | on an open ready stream the Begins pushed are the reference clock of all times ever given |
| `CaptureLaws.BeginsIncrease` | mobile/bridge/capture.go:236-303 | over every run, cancelled or not, the Begins of every stream strictly increase |
| `CaptureLaws.StatusComesFirst` | mobile/bridge/capture.go:227-253 | in a sequence of frames kept in order every Begin, and every coded frame where these are in order too, comes after a Status |
| `CaptureLaws.CodedFrameFits` | mobile/bridge/capture.go:306-323 | every coded frame has the one committed codec and a layer and size within that layer's output |
| `CaptureLaws.AcceptedUnitIsClocked` | mobile/bridge/capture.go:257-269 | a unit that `Video` accepts passes every check of `VideoLayer`, and if the stream is not cancelled after the call it went in behind a Begin at its time or later |
| `CaptureOrder.UnitIsClockedIff` | mobile/bridge/capture.go:257-323 | however its two pushes turn out, an accepted unit goes in only behind a Begin at its time or later if and only if before the call the context is open with room in the queue or such a Begin went in already |
| `CaptureOrder.CancelledStreamCanSkipBegin` | mobile/bridge/capture.go:257-323 | otherwise a unit can go in without any Begin |
| `CaptureLaws.RespondKeepsInv` | mobile/bridge/capture.go:211-366 | every bridge call keeps the clock, queue, codec and order invariants of a stream |
| `CaptureLaws.RespondKeepsFormatFits` | mobile/bridge/capture.go:224-234 | a committed size always fits the primary output |
| `CaptureCalls.RespondClosesIff` | mobile/bridge/capture.go:211-366 | a bridge call closes a live stream if and only if it is a refused codec, a unit or layer out of bounds, the loss of the primary layer, sound of a wrong length, a dismissal or an end |
| `CaptureCalls.ClosingOnlyCloses` | mobile/bridge/capture.go:167-176 | a closing call changes nothing else, and only a dismissal has its own cause |
| `CaptureCalls.UnavailableAdds` | mobile/bridge/capture.go:326-336 | the loss of another layer in range is one frame more, and out of range nothing |
| `CaptureCalls.SoundAdds` | mobile/bridge/capture.go:338-347 | sound of 3840 bytes is one frame more |
| `CaptureCalls.LayerAdds` | mobile/bridge/capture.go:306-323 | an accepted layer is one coded frame more, of the committed codec |
| `CaptureCalls.InputAdds` | mobile/bridge/capture.go:285-303 | a capture time that is news is remembered, and announced once the input is ready |
| `CaptureCalls.UnitAdds` | mobile/bridge/capture.go:257-269 | an accepted unit is its capture time and then its frame, on the primary layer in the committed size |
| `CaptureCalls.ReadyAdds` | mobile/bridge/capture.go:211-254 | a readiness answers true if and only if it commits, and then adds its Status and the first and latest time waiting; otherwise it changes nothing |
| `CaptureCalls.PushDecides` | mobile/bridge/capture.go:201-208 | a push goes through exactly when it is let or the context is open with room, and otherwise changes no frame |
| `CaptureCalls.ReadDecides` | mobile/bridge/capture.go:149-159 | a read waits exactly on an open empty stream, gives the oldest unread frame, and tells a dismissal from any other end |
| `CaptureCalls.SizeIff` | internal/app/nativecapture/protocol.go:32-36 | a size is valid if its sides are even, from 2 to 8192, and it has at most 36864 macroblocks |
| `CaptureLaws.RunKeepsInv` | mobile/bridge/capture.go:62-71 | after every run ids are in use up to the counter only, and each closed stream was stopped on the platform exactly once and no other stream was |
| `CaptureLaws.RunKeepsStream` | mobile/bridge/capture.go:62-71 | ids are never reused, closed streams stay closed, and a cause to end is never replaced |
| `CaptureLaws.FirstTerminatorDecides` | mobile/bridge/capture.go:149-176 | whichever of close, parent cancel, user cancel and source end comes first alone decides whether reading ends cancelled or with EOF |
| `CaptureOrder.OneCallKeepsSequenceIff` | mobile/bridge/capture.go:211-366 | after any one bridge call every coded frame still follows a Status if and only if the stream has no format or its Status went in |
| `CaptureOrder.StaysInSequenceIff` | mobile/bridge/capture.go:201-323 | a stream whose coded frames follow a Status so far keeps that through every further run if and only if its Status went in, it is closed, or no format was or can be committed |
| `CaptureOrder.OnlyLostStatusBreaks` | mobile/bridge/capture.go:201-323 | over every run coded frames follow a Status unless at some moment a format stood committed without its Status |
| `CaptureOrder.FirstReadinessDecides` | mobile/bridge/capture.go:211-254 | once the first readiness to commit a codec has pushed its Status, and so if it answered true, every coded frame ever pushed follows a Status, and otherwise some run breaks that |
| `CaptureOrder.OpenStreamStaysInSequence` | mobile/bridge/capture.go:211-323 | a stream that is not cancelled and has a format keeps that for good, whatever ends it later |
| `CaptureOrder.CancelledStreamCanSkipStatus` | mobile/bridge/capture.go:201-254 | on an already cancelled stream a coded frame can go in without any Status |
| `MobileCapture.CaptureStream.PushFrame` | mobile/bridge/capture.go:201-208 | the push in place computes the push function |
| `MobileCapture.CaptureStream.ReadFrame` | mobile/bridge/capture.go:149-159 | so does the read |
| `MobileCapture.CaptureStream.Ready` | mobile/bridge/capture.go:211-254 | so does readiness, with its commitment of codec and size |
| `MobileCapture.CaptureStream.Start` | mobile/bridge/capture.go:236-253 | so does the first publication of the clock |
| `MobileCapture.CaptureStream.Input` | mobile/bridge/capture.go:285-303 | so does a capture time |
| `MobileCapture.CaptureStream.Layer` | mobile/bridge/capture.go:306-323 | so does a coded layer |
| `MobileCapture.CaptureStream.Unit` | mobile/bridge/capture.go:257-269 | so does an access unit, through the two calls it makes |
| `MobileCapture.CaptureStream.Unavailable` | mobile/bridge/capture.go:326-336 | so does the loss of a layer, whose decisions `CaptureCalls` states |
| `MobileCapture.CaptureStream.Sound` | mobile/bridge/capture.go:338-347 | so does audio |
| `MobileCapture.CaptureStream.CloseOnce` | mobile/bridge/capture.go:167-176 | closing cancels once and marks the stream closed |
| `MobileCapture.Capture.OpenStream` | mobile/bridge/capture.go:62-71 | opening uses the next id and registers the stream under it |
| `MobileCapture.Capture.Retire` | mobile/bridge/capture.go:167-176 | closing forgets the stream and stops it on the platform once |
| `MobileCapture.Capture.Bridged` | mobile/bridge/capture.go:194-199 | a bridge call reaches a registered stream only, and the registry afterwards is that of the run |
| `MobileCapture.Capture.ReadOne` | mobile/bridge/capture.go:149-159 | a read in the registry is one step of the run |
| `MobileCapture.Capture.CloseOne` | mobile/bridge/capture.go:167-176 | so is a close, by a consumer or a watcher |
| `MobileCapture.Capture.ParentCanceled` | mobile/bridge/capture.go:69 | so is the end of a parent context |
| `RotatingLog.DiagnosticLog.OpenLog` | internal/diagnostics/recorder.go:38-71 | opening succeeds exactly on files of at most 8 MiB whose checks succeed, and notes earlier history exactly for a file with content or a backup it could see |
| `RotatingLog.DiagnosticLog.RotateFiles` | internal/diagnostics/recorder.go:273-291 | the rotation in place computes the rotation function, whichever step fails |
| `RotatingLog.DiagnosticLog.WriteData` | internal/diagnostics/recorder.go:248-271 | so does the write |
| `RotatingLog.FittingWrite` | internal/diagnostics/recorder.go:263-270 | a record that fits goes behind the current file, and the count returned is what was written |
| `RotatingLog.RefusedWrite` | internal/diagnostics/recorder.go:251-262 | a log without a file refuses every record, and an open one those above 8 MiB, which it remembers |
| `RotatingLog.RotatingWrite` | internal/diagnostics/recorder.go:263-290 | the first step of a rotation to fail decides what the files hold, and a rotation counts if and only if none fails |
| `RotatingLog.DiagnosticLog.Close` | internal/diagnostics/recorder.go:225-236 | closing leaves the files and adds the errors of sync and close to those recorded, once |
| `RotatingLog.DiagnosticLog.Snapshot` | internal/diagnostics/recorder.go:306-340 | a snapshot is the files that can be read, the backup first, and its issues are exactly those of the log, of the sync and of each file; none is ever above the limit, and without an issue it is the retained end of everything written |
| `RotatingLog.FilesAreSuffix` | internal/diagnostics/recorder.go:248-291 | backup then current file are always a suffix of every byte ever written, in whole pieces |
| `RotatingLog.RunKeepsInv` | internal/diagnostics/recorder.go:248-291 | every run of writes and closes, with any failures, keeps that, the limit of each file, and the size equal to the current length |
| `RotatingLog.WriteKeepsBounds` | internal/diagnostics/recorder.go:260-269 | a write keeps each file within the limit and the size exact |
| `RotatingLog.FaultlessRunKeepsRecordsWhole` | internal/diagnostics/recorder.go:248-271 | without a failure every record within the limit goes into one file whole |
| `RotatingLog.RotatedFilesAreFull` | internal/diagnostics/recorder.go:263-289 | without a failure any rotation leaves more than one limit in the two files and at most two |
| `RotatingLog.FirstErrorIsKept` | internal/diagnostics/recorder.go:254-259 | the first error is kept by everything that follows |
| `RotatingLog.FailureIsRecorded` | internal/diagnostics/recorder.go:254-259 | a failing write records its error exactly when there was none |
| `RotatingLog.ClosedLogStays` | internal/diagnostics/recorder.go:251-253 | a log without a file refuses every write and never changes |
| `RotatingLog.HistoryClaimHoldsIff` | internal/diagnostics/recorder.go:66-67 | a false `earlierHistoryMayBeMissing` means complete history over every run if and only if opening noted earlier history or the backup was empty |
| `RotatingLog.LostBackup` | internal/diagnostics/recorder.go:273-299 | otherwise one failing rename loses the backup unnoticed |
| `LineWriter.Writer.Write` | internal/diagnostics/logging.go:167-180 | writing in place feeds the bytes to the splitter one by one and reports them all |
| `LineWriter.Writer.FlushLine` | internal/diagnostics/logging.go:182-196 | flushing in place computes the flush function, whose markers `MarkersIff` states on the text |
| `LineWriter.Writer.Close` | internal/diagnostics/logging.go:198-203 | closing flushes the unterminated line |
| `LineWriter.FeedIsExpected` | internal/diagnostics/logging.go:167-196 | at every point the splitter is where a batch reading of whole lines says it is |
| `LineWriter.LinesAreSplit` | internal/diagnostics/logging.go:170-178 | the lines of that reading, each with its line feed, and the rest make up the text and hold no other line feed |
| `LineWriter.ChunkingDoesNotMatter` | internal/diagnostics/logging.go:167-180 | any chunking into writes gives the same state |
| `LineWriter.ClosedRecords` | internal/diagnostics/logging.go:167-203 | any chunking, then closing, emits exactly the batch records, the last line included |
| `LineWriter.LineIsAccountedFor` | internal/diagnostics/logging.go:170-178 | at every point of any text kept and omitted bytes make up the line read so far, with at most 64 KiB kept |
| `LineWriter.RecordIsAccountedFor` | internal/diagnostics/logging.go:182-196 | a line feed emits one record with the exact number of bytes omitted and the kept bytes or the redaction text, and none exactly for a blank line outside a key |
| `LineWriter.KeyLinesAreRedacted` | internal/diagnostics/logging.go:184-190 | from a kept BEGIN through the first kept END only the redaction text is emitted |
| `LineWriter.RedactedIff` | internal/diagnostics/logging.go:182-190 | a line that does not itself show the redaction text is redacted if and only if a kept BEGIN at or before it has met no kept END since |
| `LineWriter.ContainsIff` | internal/diagnostics/logging.go:184-188 | a text contains a part if and only if the part stands at some position |
| `LineWriter.MarkersIff` | internal/diagnostics/logging.go:184-188 | a line begins a key if it holds "-----BEGIN " and "PRIVATE KEY-----" anywhere, and ends one with "-----END " |
| `LineWriter.KeyIsRedacted` | internal/diagnostics/logging.go:182-196 | a line with a BEGIN marker in the middle of anything is emitted as the redaction text, and opens the key unless it ends it |
| `LineWriter.KeyStaysRedacted` | internal/diagnostics/logging.go:187-190 | in a key every line is, until one that ends it |
| `LineWriter.KeyEnds` | internal/diagnostics/logging.go:187-190 | a line with an END marker in the middle of anything ends the key |
| `LineWriter.WrittenKeyIsRedacted` | internal/diagnostics/logging.go:167-196 | a written line of at most 64 KiB with a BEGIN marker shows nothing of itself |
| `LineWriter.RedactionEnds` | internal/diagnostics/logging.go:187-193 | after a kept END a line without a BEGIN is shown as it is, and a blank one not at all |
| `LineWriter.MarkerBeyondTheLimitIsUnseen` | internal/diagnostics/logging.go:173-186 | a BEGIN beyond the kept bytes leaves the next line shown |
| `PcapFlows.PacketFlows` | scripts/network-lab/packets.ts:17-55 | on arbitrary bytes every read is in bounds and the loop advances; the result is the group-by of the sightings in order of first appearance, or the error of the first bad record |
| `PcapFlows.RecordAt` | scripts/network-lab/packets.ts:23-27 | a record that is read lies within the file and is at most 96 bytes |
| `PcapFlows.Inspect` | scripts/network-lab/packets.ts:29-48 | a datagram is recognised only with well-formed addresses and ports |
| `PcapFlows.DatagramReadsBack` | scripts/network-lab/packets.ts:29-48 | every IPv4 or IPv6 UDP datagram with two payload bytes is recognised with the addresses, ports, length and kind its bytes spell, and a shorter one is an error |
| `PcapFlows.MediaKinds` | scripts/network-lab/packets.ts:46-48 | version 2 with packet types 200 to 207 is RTCP, and with RTP payload types outside 64 to 95 RTP |
| `PcapFlows.OtherFramesArePassed` | scripts/network-lab/packets.ts:29-42 | exactly the frames that are no UDP over IPv4 or IPv6 are passed over, and exactly fragments and short headers refused |
| `PcapFlows.WindowDecides` | scripts/network-lab/packets.ts:24-28 | a record outside the window is passed over unread, and one inside it is seen at its own time |
| `PcapFlows.HeaderIff` | scripts/network-lab/packets.ts:18-20 | a capture starts with the little-endian magic number and the Ethernet link type, or is refused |
| `PcapFlows.RecordRefusedIff` | scripts/network-lab/packets.ts:23-26 | a record is refused exactly if it is cut off or longer than 96 bytes |
| `PcapFlows.RecordReadsBack` | scripts/network-lab/packets.ts:23-27 | a written record is read back at its offset |
| `PcapFlows.FileReadsBack` | scripts/network-lab/packets.ts:17-48 | a written capture shows exactly the sightings of its records |
| `PcapFlows.KeyTextInjective` | scripts/network-lab/packets.ts:49 | two flows share a map key only when they are the same flow |
| `PcapFlows.Count` | scripts/network-lab/packets.ts:49-53 | one more sighting keeps the flow map the group-by |
| `PcapFlows.FlowTotals` | scripts/network-lab/packets.ts:49-55 | flow keys are distinct, packets add up to the UDP records seen and bytes to their length fields |
| `PcapFlows.FlowTimes` | scripts/network-lab/packets.ts:50-52 | a flow's first and last times are those of its first and last sightings in file order |
| `PcapFlows.FlowsConserve` | scripts/network-lab/packets.ts:49-55 | every sighting is counted in exactly one group |
| `PcapFlows.FlowsMerge` | scripts/network-lab/packets.ts:49-55 | the group of a key over two lists of sightings amounts to the merge of its groups: sums, first first time, last last time |
| `PcapFlows.KeysJoin` | scripts/network-lab/packets.ts:49-55 | its keys are those of both, the first capture's in front |
| `PcapFlows.ContinuedCapture` | scripts/network-lab/packets.ts:22-54 | a capture continued by more records sees the first records, then the others |
| `PcapFlows.AppendedCaptureReadsBoth` | scripts/network-lab/packets.ts:17-54 | the capture of two record lists in a row shows the sightings of both captures, one after the other |
| `PcapFlows.AppendedCaptureMergesFlows` | scripts/network-lab/packets.ts:17-55 | parsing it gives for every key exactly the merge of the flows parsed from the two, a one-sided key unchanged, with the first capture's flows in front |
| `PcapFlows.CheckMediaPath` | scripts/network-lab/packets.ts:61-80 | the direct path is answered when it has feedback, else the first relay whose two hops have, else none; each hop of an answer has media and matching reverse feedback |
| `PcapFlows.FeedbackIff` | scripts/network-lab/packets.ts:61-67 | a hop has feedback if and only if at least 30 RTP packets go one way and more than one RTCP packet comes back between the same ports after the first |
| `CaptureFraming.WriteCaptureControl` | scripts/app-media-gate.ts:155-167 | a command of 1 to 64 printable characters becomes one frame that decodes to exactly its kind and payload, whatever follows; anything else is refused |
| `CaptureFraming.EncodedFrameIsRead` | scripts/app-media-gate.ts:177-192 | an encoded frame within its limits is decoded back |
| `CaptureFraming.EncodedFrameVerdict` | scripts/app-media-gate.ts:177-192 | any frame on the wire is decoded back if it is within 4 KiB for a status, 4 MiB for another kind, and not empty unless of kind 5, and otherwise malformed |
| `CaptureFraming.MalformedIff` | scripts/app-media-gate.ts:178-189 | a buffer is malformed exactly by its first bytes, its version or its length |
| `CaptureFraming.WireLayout` | scripts/app-media-gate.ts:160-165 | where each part of a frame lies on the wire |
| `CaptureFraming.PeekStays` | scripts/app-media-gate.ts:177-192 | bytes that arrive later never change a verdict on a head |
| `CaptureFraming.Observer.Data` | scripts/app-media-gate.ts:175-208 | a data event in place computes the event function |
| `CaptureFraming.ChunkingDoesNotMatter` | scripts/app-media-gate.ts:175-208 | however the stream is cut, the same frames are handled and the same residue is left |
| `CaptureFraming.WrittenFramesAreHandled` | scripts/app-media-gate.ts:175-208 | a stream of written frames leaves the decoder as handling them one by one does, until one throws, with nothing left |
| `CaptureFraming.WrittenFramesSurviveChunking` | scripts/app-media-gate.ts:155-208 | written frames, cut anywhere, are handled exactly and in order up to the first status that does not parse, and all of them, with nothing left, if and only if there is none |
| `CaptureFraming.OnDataRests` | scripts/app-media-gate.ts:177-192 | after every event the buffer holds no whole frame, and the child is killed exactly at a malformed head |
| `CaptureFraming.ResidueIsBounded` | scripts/app-media-gate.ts:177-190 | the residue is shorter than 32 bytes and the largest payload |
| `CaptureFraming.MalformedAbsorbs` | scripts/app-media-gate.ts:178-190 | behind a malformed head nothing is handled any more |
| `CaptureFraming.EvidenceIsOfFrames` | scripts/app-media-gate.ts:193-206 | after any chunks the evidence is exactly that of the frames handled: the states their statuses gave, one key frame requested, at the fifth video frame, and recovery noted exactly for a flagged video frame after it |
| `CdpConnection.Multiplexer.Request` | scripts/browser-gate-harness.ts:73-107 | a call is refused once closed, and otherwise gets the next id, a timer and a pending entry, all taken back when sending throws |
| `CdpConnection.Multiplexer.OnMessage` | scripts/browser-gate-harness.ts:113-132 | a message in place computes the receive function, whose outcomes `ReplyDecides` states |
| `CdpConnection.Multiplexer.OnTimer` | scripts/browser-gate-harness.ts:84-87 | a timer in place computes the timeout step |
| `CdpConnection.Multiplexer.ClosePending` | scripts/browser-gate-harness.ts:134-142 | the end of the socket settles every pending call in order of issue and leaves none |
| `CdpConnection.Multiplexer.Close` | scripts/browser-gate-harness.ts:109-111 | closing asks the socket to close until it has, and settles nothing itself |
| `CdpConnection.RunKeepsInv` | scripts/browser-gate-harness.ts:73-142 | over every interleaving each issued call has exactly one outcome, or an armed timer and none |
| `CdpConnection.CallStarts` | scripts/browser-gate-harness.ts:82-106 | a call starts out waiting, or settled when it could not be sent |
| `CdpConnection.CallDecides` | scripts/browser-gate-harness.ts:82-106 | a call takes the next id and waits under its name, or is rejected with what sending threw |
| `CdpConnection.RefusedCallChangesNothing` | scripts/browser-gate-harness.ts:79-81 | a call on a closed connection, or with its socket not open, changes nothing |
| `CdpConnection.ReplyDecides` | scripts/browser-gate-harness.ts:120-131 | a reply resolves its pending call with its result or an empty object if and only if the error is falsy, and else rejects it with the error's text |
| `CdpConnection.OtherDecisions` | scripts/browser-gate-harness.ts:84-87 | a timer rejects its pending call with its name, and the end of the socket with a fixed reason |
| `CdpConnection.NothingElseDecides` | scripts/browser-gate-harness.ts:73-142 | no other event decides a pending call |
| `CdpConnection.ClosingOrder` | scripts/browser-gate-harness.ts:134-142 | the end of the socket settles the pending calls in the order they were issued |
| `CdpConnection.RunProjects` | scripts/browser-gate-harness.ts:73-142 | calls do not interfere: each goes through any run exactly as it would alone, decided by the first event that concerns it |
| `CdpConnection.OutcomeStands` | scripts/browser-gate-harness.ts:73-142 | an outcome once given is never changed or repeated |
| `CdpConnection.OnlyPendingRepliesMatter` | scripts/browser-gate-harness.ts:113-132 | a message changes anything if and only if it answers a pending call |
| `CdpConnection.MatchedIff` | scripts/browser-gate-harness.ts:84-142 | armed timers stay the pending calls' exactly unless a pending call gets a reply whose error cannot be printed |
| `CdpConnection.RunStaysMatched` | scripts/browser-gate-harness.ts:73-142 | so they are in every run without such a reply |
| `CdpConnection.UnprintableReplyStrands` | scripts/browser-gate-harness.ts:121-128 | such a reply leaves the call neither pending nor settled, even when the socket ends |
| `CdpConnection.ClosedIsFinal` | scripts/browser-gate-harness.ts:79-81 | once closed nothing is pending, and nothing can become pending |
| `CdpConnection.CloseSettlesAll` | scripts/browser-gate-harness.ts:134-142 | the end of the socket leaves every issued call settled once and no timer armed, if and only if timers were matched |
| `MediaCopyAccounting.Count` | src/shared/media-copy-accounting.ts:12-27 | the count is the size of children and selected together plus the publication, exactly when the children are distinct, and never less |
| `MediaCopyAccounting.CountIsUnion` | src/shared/media-copy-accounting.ts:12-27 | the same of the counting function |
| `MediaCopyAccounting.PublicationCosts` | src/shared/media-copy-accounting.ts:22-26 | a live publication is one copy, an absent or empty generation none |
| `MediaCopyAccounting.LimitsAre` | src/shared/media-copy-accounting.ts:29-37 | limits are 1, 2, 3 when steady and 2, 3, 3 in transition, and everything but the three capacities throws |
| `MediaCopyAccounting.FitsIff` | src/shared/media-copy-accounting.ts:39-50 | a count fits if and only if it is a whole number, not negative, up to the limit of a valid capacity |
| `MediaCopyAccounting.TransitionIsSteadyOnlyAtTheMaximum` | src/shared/media-copy-accounting.ts:29-50 | at capacity 3 and no other a transition admits no more than a steady state |
| `MediaCopyAccounting.ChangeCost` | src/shared/media-copy-accounting.ts:12-27 | selecting costs one copy for a new peer, committing a selected child nothing, and retiring frees one exactly when the child is not still selected |
| `MediaCopyAccounting.CanSelectOneMore` | src/shared/media-copy-accounting.ts:29-50 | a steady fit below capacity 3 can select one more child within the transition limit |
| `MediaCopyAccounting.HandoffReturns` | src/shared/media-copy-accounting.ts:12-50 | select, commit, retire uses one extra copy, admitted unless capacity 3 is full, and ends in a steady fit exactly when the retired child is not still selected or there was room |
| `MediaCopyAccounting.AdmittedRunsFit` | src/shared/media-copy-accounting.ts:12-50 | whatever the order of route changes, an endpoint that checks its selections and commits only selected peers never carries more than three copies |

## Left out

- Peripheral code: Chrome driving, process spawning, WebRTC and codec behaviour, React, network namespaces, server lifecycle and everything else outside the files cited above.
- Clocks, I/O results, ready states and Go's choice between ready cases are arguments of a step. An uncaught exception leaves what was done before it. A run that ends there is one of the runs covered, and the frame decoder stops.
- Capture calls are atomic steps: races inside one exported call are not modelled, and nothing is claimed about the order of the platform's Start and Stop.
- Capture configuration as JSON, codec availability, H.264 profile contents, control requests and the further fields of the Status payload are not modelled. A profile verdict is an argument.
- A capture push on an open stream with room succeeds. One that waits ends by a reader or by the end of the context, as the step says.
- `SafeText`, `JSON.parse` of a status and regular-expression redaction are uninterpreted. Records hold the text before `SafeText`.
- Diagnostic files that are not regular, directory creation and the export archive are not modelled. A failing file operation has no effect, except that a failing write may write part of its data.
- Floating-point rounding: times and durations are exact reals or integers.
- The message handler's binding of a socket and the fields of the page state that are not the route are not modelled.
- Script, layout, style and heap totals of the page summary: they are summed like task time, and only task time has an average and a peak.
- The route server's own admission protocol is not part of these files. Selecting, committing, retiring and releasing are any sequence of changes that checks the limit when it selects.
- What a WebCodecs decoder does with a packet outside its chain: the encoder model records what each decoder is fed and proves when that is decodable.
- ResourceSummary.SampleProcesses: the final sort by id and type is not modelled, because no comparison depends on the order.
- ResourceSummary.SummarizePages: a time is a finite number, so the checks for numbers that are not finite have no counterpart.
- MobileCapture.CaptureStream.CloseOnce: one source call is two methods here, this one for the stream and Retire for the registry.
- CaptureFraming.ChunkingDoesNotMatter: after a status payload that throws, the buffer left behind is not compared.

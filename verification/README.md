# A verified model of the WebRTC camera server

The server captures frames with V4L2, encodes them, and offers them over WebRTC; peers are set up,
patched and torn down by HTTP requests (POST, PATCH, DELETE on `/resource/<id>`). This project models
the parts of it that carry state or arithmetic and proves what they keep.

`dafny verify dfyconfig.toml` checks the whole project.

## The parts

**One peer** (`PeerMachine`, `PeerSafety`, `PeerOverlap`, `PeerNecessity`, `PeerRestart`, `PeerProgress`, `PeerTimer`, `RtcPeer`).
An `RtcPeer` is driven by the HTTP thread, the WebRTC library's callback thread, whoever runs `Terminate`, the
connect-timeout thread and the delayed SDP-send thread. Each has a program counter and moves one atomic step at a
time; `join` is a step that waits for the joined thread. Assigning over a joinable thread, calling an empty handler,
and using a null connection or description are faults. Without any assumption the handler of a POST runs at most once.
Under twelve assumptions about the library and about overlapping callbacks (`PeerMachine.Assumption`, each a predicate
on a single step) no interleaving faults, `Terminate` neither deadlocks nor livelocks, nothing happens after it, and a
second one changes nothing. Each of the twelve is necessary: dropping it alone admits an unsafe schedule, which is
given. The nine that are not about what the library does only once or about a second offer are also the weakest
possible: from any sound peer, a step that breaks one has an unsafe continuation. When a restart is unsafe,
when an answer can still come, and when the connect timeout closes the connection, is decided exactly. The class `RtcPeer` performs the methods in place, and every call leaves
it in a state that some schedule of the machine reaches.

**The service** (`ServiceMachine`, `ServiceAnswers`, `ServiceSafety`, `ServiceMap`, `ServiceProgress`, `ServiceRequests`,
`ServiceOwners`, `ServiceCleaner`, `HttpService`).
All sessions, the map cleaner and all peers as one machine. Over every schedule, whatever the library does, a session
is answered at most once, every request that creates no peer exactly once, and a 201 comes only from the peer its own
POST created. Under the assumptions on peers the process never stops, the peer map never leads to a terminated peer
between requests, an id that has left the map never comes back, and the Location of a 201 leads back to its peer.
No peer is lost: each is mapped, in a handler's hands, being terminated, or destroyed and quiet. Every request can be
brought to its answer, and the HTTP thread and the cleaner back to rest, without breaking an assumption. The class
`HttpService` keeps the map in place.

**Text** (`Routes`, `SdpScanner`, `SdpRewrite`, `SdpText`, `SdpCandidates`, `SdpLines`). Scanners for "key, then a greedy run of a
class", proved equal to line-by-line specifications on every string; then round trips. For the grammar see section 9
of RFC 8840 and sections 5.1 and 5.4 of RFC 8839; for `.` and line ends, section 15.10.2.8 of ECMA-262, 3rd edition.

**Frame buffers** (`Alignment`, `I420`, `I420Samples`, `FrameBuffer`). Both `AlignUp`s, the overflow guards of
`I420Buffer::Create` for every width of `size_t` that holds an `int`, plane layout, `ByteSize`, and the copy of packed
YUV420 frames.

**Fan-out** (`Subject`). `Subject` and `Observable` over whole runs.

**Capture** (`V4L2Buffers`, `Capturer`). Mapping and unmapping against a kernel that keeps books, and buffer ownership
between driver and application, interleaved with the driver's writes and the destructor, which always can end.

**Timestamps** (`Timestamps`). The encoder's and the peer's latch, with the wrap-around of `uint64_t`.

## What is assumed

Of the library: one HaveRemoteOffer for each accepted offer, and none once `Terminate` has begun; one local
description for each `setLocalDescription`, and none while the first `Terminate` has yet to clear a registered handler;
no Connected while a delayed send has yet to call the handler; no Failed once `Terminate` has begun; no candidate
that would be added to the description while a `Terminate` is running. Of scheduling: a `Terminate` does not start in
the middle of the callbacks for HaveRemoteOffer or Failed, nor of those for a local description that is going to be
sent or for a candidate that is going to be added; and a second `SetRemoteSdp` finds the peer connected. Peers get
addresses and ids no peer has had.

## What the proofs show about the code

- An ICE restart (PATCH with `If-Match: *`) does nothing on a peer that is connected when `SetRemoteSdp` checks, since that
  returns at once. On any other peer it can end badly: the library's report of a second accepted offer assigns over a
  joinable timeout thread, and a second local description sends with a handler that the first send has cleared. When
  exactly: `PeerRestart.RestartUnsafeExactly`, `PeerRestart.RestartFaultsExactly`.
- `OnIceCandidate` checks the description and then uses it; a `Terminate` in between leaves it null. This can happen exactly
  if a `Terminate` starts while the callback is on its way from the one to the other, or a candidate is reported while one
  is running and has yet to take the description
  (`PeerOverlap.TerminateUnsafeExactly`, `PeerOverlap.CandidateUnsafeExactly`).
- A DELETE that overlaps a local-description callback can leave a joinable send thread behind. It can do harm exactly
  when it starts while a callback is going to answer, to add a candidate, to start the timeout thread or to close the
  connection (`PeerOverlap.TerminateUnsafeExactly`); what happens then is said by `PeerOverlap.GoesWrong`.
- A peer whose library reports Connected before its local description never answers its POST: the callback clears the
  handler. Exactly which peers can still answer: `PeerProgress.AnswerExactly`.
- The two rewrites of a restart can destroy each other's attribute when one line holds both keys
  (`SdpText.RestartCanLoseUfrag`); which credentials can be read back is decided exactly by which key is behind
  which in each line (`SdpText.RestartReadsExactly`). A restart changes or loses a candidate exactly if it rewrites the
  candidate's line (`SdpCandidates.CandidatesKeptExactly`).
- `I420Buffer::Create` calls the class's own `AlignUp`, which divides and multiplies in `int`; the masking one of
  the same file is used for `V4L2FrameBuffer` only. The chroma guard can never fail after the luma guard, and with a
  64-bit `size_t` none of the overflow checks can fail at all. With alignment 1 and an odd width above 16 the U and V planes
  share a byte (`I420Samples.InjectiveExactly`), and the last V sample is one past the allocation
  (`I420Samples.OffsetInPlane`).
- `ByteSize` is short by one row of U and one of V for odd heights (`I420Samples.ByteSizeIs`).
- The one-piece copy in `ToI420` is right exactly for widths that are multiples of 64 (`I420Samples.PlacedExactly`).
- Resizing a group cuts off the mappings behind its new end, and mapping it again overwrites those it still holds; exactly
  these are lost (`V4L2Buffers.RemapLeaks`).
- A second `UnMap` closes every exported descriptor again (`V4L2Buffers.SecondUnmap`).
- Every failed requeue loses a buffer for good; after as many as there are buffers no frame is published again
  (`CaptureRuns.StarvedPublishesNothing`), and not before (`CaptureRuns.NotStarvedPublishes`).
- A peer open from the start sends duration 0 for the first two frames (`Timestamps.SecondFrameIsZeroToo`).

## Model

| member | source | states |
|---|---|---|
| PeerSafety.OneShotStep | src/rtc/rtc_peer.cpp:145-207 | every step of every actor keeps the handler one-shot: set only by its registration, gone or about to go once it has run |
| PeerSafety.FiresAtMostOnce | src/rtc/rtc_peer.cpp:171-207 | over every schedule, with no assumption, the local-SDP handler runs at most once and only for the session that registered it |
| PeerSafety.SoundStep | src/rtc/rtc_peer.cpp:72-245 | every step that respects the assumptions keeps the whole peer invariant, from thread spawning to how far Terminate has got |
| PeerSafety.NeverUnsafe | src/rtc/rtc_peer.cpp:72-207 | under the assumptions no interleaving faults or leaves a joinable thread after Terminate, and a live timeout thread always finds its connection |
| PeerSafety.QuietAfterTerminate | src/rtc/rtc_peer.cpp:72-90 | once Terminate has returned no continuation runs the handler, closes the connection or starts a thread |
| PeerSafety.SecondTerminateChangesNothing | src/rtc/rtc_peer.cpp:58-90 | the destructor's Terminate after a DELETE only resets what late callbacks set |
| PeerSafety.TerminateAdvances | src/rtc/rtc_peer.cpp:76-81 | no deadlock: the step Terminate waits for is possible and brings it nearer its end |
| PeerSafety.TerminateNotSetBack | src/rtc/rtc_peer.cpp:72-90 | no livelock: no step of any actor sets a running Terminate back |
| PeerNecessity.EveryAssumptionIsNeeded | src/rtc/rtc_peer.cpp:72-207 | dropping any one of the twelve assumptions, and only it, admits an unsafe schedule |
| PeerNecessity.RestartWhenConnectedNeeded | src/rtc/rtc_peer.cpp:110-139 | a schedule from a fresh peer that breaks only this assumption and assigns over the joinable timeout thread |
| PeerOverlap.UnsafeExactly | src/rtc/rtc_peer.cpp:72-207 | repeated reports and second offers apart, a step from any sound peer has an unsafe continuation if and only if it breaks an assumption |
| PeerOverlap.TerminateUnsafeExactly | src/rtc/rtc_peer.cpp:72-207 | a Terminate starting on any sound peer can end badly if and only if it overtakes a callback that has yet to answer, add a candidate, start the timeout thread or close the connection |
| PeerOverlap.CandidateUnsafeExactly | src/rtc/rtc_peer.cpp:160-169 | a candidate reported to any sound peer can end badly if and only if a Terminate is running and there is a description to add it to |
| PeerOverlap.GoesWrong | src/rtc/rtc_peer.cpp:72-207 | what becomes of each overtaken callback: a joinable thread after Terminate, an empty handler called, a null description or connection used |
| PeerRestart.RunSetRemoteSdp | src/rtc/rtc_peer.cpp:209-232 | SetRemoteSdp without interruption changes nothing on a connected peer, and otherwise gives the library one offer |
| PeerRestart.RunRestart | src/rtc/rtc_peer.cpp:110-125 | so does RestartIce, whose reading of both descriptions finds a connection |
| PeerRestart.RunPatch | src/rtc/rtc_peer.cpp:110-245 | all calls of a PATCH without interruption: a connected peer ignores them, another gives the library every candidate, and one offer if a restart is asked for |
| PeerRestart.CallsWithoutConnection | src/rtc/rtc_peer.cpp:110-245 | a call that reached a peer whose connection is gone would use the null pointer, exactly if it reads descriptions or the peer is not connected |
| PeerRestart.RestartUnsafeExactly | src/rtc/rtc_peer.cpp:110-232 | on every sound resting peer, whatever the library makes of the offer: a restart has an unsafe continuation if and only if the peer was not connected and a timeout thread of the first offer, or an answer to it, is still to come or to be joined when the second comes |
| PeerRestart.RestartFaultsExactly | src/rtc/rtc_peer.cpp:110-139 | where one offer has been accepted: after an accepted restart the assignment over a joinable thread can be reached if and only if the peer was not connected |
| PeerProgress.FinishCalls | src/rtc/rtc_peer.cpp:110-232 | every request can be brought to its end on every sound peer, without breaking an assumption |
| PeerProgress.FinishTerminate | src/rtc/rtc_peer.cpp:72-90 | so can every Terminate, its joins included |
| PeerProgress.AnswerExactly | src/rtc/rtc_peer.cpp:145-207 | a sound peer past handing over its offer can still answer if and only if a send is under way, or a description is to be reported and nothing is about to clear the handler |
| PeerTimer.TimeoutAlone | src/rtc/rtc_peer.cpp:131-137 | left alone the timeout thread ends, having closed the connection exactly if it is there and the peer neither complete nor connected |
| PeerTimer.RunOut | src/rtc/rtc_peer.cpp:131-137 | from any point it ends, closing or using a null connection exactly as far as it has got |
| PeerTimer.NeverTimesOut | src/rtc/rtc_peer.cpp:131-137 | over every schedule in which the peer is connected throughout, or complete throughout, the thread closes nothing |
| PeerTimer.TimesOutOnce | src/rtc/rtc_peer.cpp:131-137 | over every schedule in which connection is there and the peer neither complete nor connected throughout, the thread closes exactly once, and is then finished |
| PeerTimer.TimesOutAtMostOnce | src/rtc/rtc_peer.cpp:127-139 | under the assumptions the timeout closes the connection of a peer at most once |
| PeerRuns.RunTerminate | src/rtc/rtc_peer.cpp:72-90 | an uninterrupted Terminate, joins included, is a fair run of the machine to exactly this state, the number of closes included |
| PeerRuns.RunDescription | src/rtc/rtc_peer.cpp:171-207 | an uninterrupted local-description callback never finds an earlier send to join |
| RtcPeers.RtcPeer.constructor | src/rtc/rtc_peer.cpp:54-56 | a new peer is the machine's fresh peer |
| RtcPeers.RtcPeer.Terminate | src/rtc/rtc_peer.cpp:72-90 | writes the answer a pending send owes, closes the connection as often as said, and leaves the whole state quiet for good, as some fair schedule does |
| RtcPeers.RtcPeer.OnLocalSdp | src/rtc/rtc_peer.h:28 | registers the one handler and changes nothing else |
| RtcPeers.RtcPeer.SetRemoteSdp | src/rtc/rtc_peer.cpp:209-232 | on every peer: a connected one ignores the description, another has it set as far as the library accepts it, and stays valid unless it had an offer before |
| RtcPeers.RtcPeer.RestartIce | src/rtc/rtc_peer.cpp:110-125 | on a connected peer nothing changes; on another the rewritten description is set, as a second offer |
| RtcPeers.RtcPeer.OnHaveRemoteOffer | src/rtc/rtc_peer.cpp:127-139 | starts the timeout thread, never over a joinable one, and changes nothing else |
| RtcPeers.RtcPeer.TimeOut | src/rtc/rtc_peer.cpp:131-137 | the body of that thread: closes exactly a peer that is neither complete nor connected |
| RtcPeers.RtcPeer.SetRemoteIce | src/rtc/rtc_peer.cpp:234-245 | a connected peer ignores the candidate, another gives it to the library |
| RtcPeers.RtcPeer.OnConnectionChange | src/rtc/rtc_peer.cpp:145-158 | the whole new state for each connection state; threads and connection stay |
| RtcPeers.RtcPeer.OnIceCandidate | src/rtc/rtc_peer.cpp:160-169 | finds the description it has checked still there, and changes nothing else |
| RtcPeers.RtcPeer.OnLocalDescription | src/rtc/rtc_peer.cpp:171-207 | the whole new state: answers at once or hands the answer to the send thread, exactly when a handler is registered |
| ServiceAnswers.AnswersStep | src/signaling/http_service.cpp:130-263 | every step of HTTP thread, cleaner and peers keeps the account of who has been answered by whom |
| ServiceAnswers.AtMostOneResponse | src/signaling/http_service.cpp:110-263 | in every interleaving a session gets at most one response |
| ServiceAnswers.ExactlyOneResponse | src/signaling/http_service.cpp:130-288 | a session whose request creates no peer has exactly one response once its handler is past writing |
| ServiceAnswers.CreatedAnswersPosts | src/signaling/http_service.cpp:158-181 | 201 goes exactly to requests that create a peer, and nothing else does |
| ServiceAnswers.CreatedComesFromOwnPeer | src/signaling/http_service.cpp:158-181 | a 201 was written by the one-shot handler of the peer its own POST created and carries that peer's id |
| ServiceProgress.CanFinish | src/signaling/http_service.cpp:183-263 | from any point of a PATCH or DELETE handler, steps of its own peer, of the library and its own lead past the answer and break no assumption |
| ServiceProgress.HandlerNotSetBack | src/signaling/http_service.cpp:183-263 | whatever moves, a waiting handler has no more work than before, or has just answered |
| ServiceProgress.AnswerComes | src/signaling/http_service.cpp:130-263 | every request that creates no peer and reads no missing route can be brought to exactly one answer, from every run, without breaking an assumption |
| ServiceProgress.PendingAnswerComes | src/signaling/http_service.cpp:166-178 | in every run a POST whose peer has a send under way, or a description that the library is to report, can be brought to its one answer |
| ServiceProgress.PostIsAnswered | src/signaling/http_service.cpp:158-181 | so can every POST that creates a peer, from its arrival on |
| ServiceProgress.ListensAgain | src/signaling/http_service.cpp:110-263 | from every point of a handler the HTTP thread can get back to listening, destructors included |
| ServiceAnswers.StatusFitsRequest | src/signaling/http_service.cpp:130-288 | in every interleaving each response's status is one its session's request can get |
| ServiceAnswers.PreconditionFailedExactly | src/signaling/http_service.cpp:183-205 | in every interleaving exactly a PATCH that is well formed but lacks If-Match is answered 412 |
| ServiceRequests.PlanExactly | src/signaling/http_service.cpp:130-263 | which request creates, patches or deletes which peer, and which is answered at once |
| ServiceRequests.PatchAsks | src/signaling/http_service.cpp:197-228 | a PATCH adds each candidate of its body, all first, then restarts ICE and answers 200 exactly if its If-Match is `*`, and otherwise answers 204 |
| ServiceRequests.PatchReachesPeer | src/signaling/http_service.cpp:197-228 | in every run that is what the mapped peer is asked |
| ServiceRequests.PatchAnswersLast | src/signaling/http_service.cpp:207-228 | it is answered only once the peer has done it all |
| ServiceAnswers.OutOfRangeExactly | src/signaling/http_service.cpp:183-248 | exactly which requests read a route that is not there |
| ServiceAnswers.StopsExactly | src/signaling/http_service.cpp:183-253 | in every interleaving the process stops exactly where such a request is handled or a peer faults |
| ServiceSafety.SafeStep | src/signaling/http_service.cpp:44-263 | every service step keeps peers sound, map keys equal to live peers' ids, and ids distinct |
| ServiceMap.NeverStops | src/signaling/http_service.cpp:44-263 | under the assumptions no interleaving of HTTP thread, cleaner and peers stops the process |
| ServiceMap.MapAtBoundary | src/signaling/http_service.cpp:44-90 | between requests every entry is a live peer no Terminate has touched, under its own id, and under that only |
| ServiceMap.RemovedStaysRemoved | src/signaling/http_service.cpp:63-90 | an id that has left the map is in it never again |
| ServiceMap.RemovedIsNotFound | src/signaling/http_service.cpp:197-253 | every later PATCH or DELETE of it is answered 422 and reaches no peer |
| ServiceMap.EntryStays | src/signaling/http_service.cpp:44-63 | a step that keeps an entry keeps what it leads to |
| ServiceMap.EntryLeaves | src/signaling/http_service.cpp:77-256 | an entry leaves exactly when its own DELETE is done or the cleaner finds its peer unconnected |
| ServiceMap.IdsAreSegments | src/signaling/http_service.cpp:44-53 | every peer's id is one path segment |
| ServiceMap.LocationLeadsBack | src/signaling/http_service.cpp:166-249 | a PATCH or DELETE of a 201's Location addresses the peer that wrote it, and while mapped finds that very peer |
| ServiceMap.PostView | src/signaling/http_service.cpp:44-53 | the machine's POST adds one entry, as the class's CreatePeer does |
| ServiceMap.DeleteView | src/signaling/http_service.cpp:255-256 | the machine's DELETE takes one entry away, as the class's HandleDelete does |
| ServiceMap.ScanView | src/signaling/http_service.cpp:79-89 | one turn of the machine's cleaner is one turn of the class's |
| ServiceOwners.OwnersStep | src/signaling/http_service.cpp:44-263 | every assumed step keeps track of every peer |
| ServiceOwners.NobodyLost | src/signaling/http_service.cpp:44-90 | in every run each peer is mapped, in a handler's hands, being terminated by the cleaner, or destroyed, and a destroyed one has no connection, handler or thread left |
| ServiceOwners.DeletedIsQuiet | src/signaling/http_service.cpp:253-256 | a DELETE is answered, and its entry goes, only once its peer is quiet |
| ServiceOwners.ScanTerminates | src/signaling/http_service.cpp:77-90 | the cleaner terminates the peer of each entry it erases unless a handler holds it, and waits for that |
| ServiceCleaner.WakeVisitsAll | src/signaling/http_service.cpp:77-90 | a clean-up starts with every key to visit |
| ServiceCleaner.CleansUp | src/signaling/http_service.cpp:77-90 | one that nobody interrupts leaves exactly the connected entries, with their peers as they were |
| ServiceCleaner.CleanerSleeps | src/signaling/http_service.cpp:77-90 | every clean-up can be brought to its end without breaking an assumption |
| HttpServices.Drop | src/rtc/rtc_peer.cpp:58-62 | dropping the last pointer terminates the peer; dropping another changes nothing |
| HttpServices.Offer | src/signaling/http_service.cpp:163-177 | registering and setting the offer is a run of the machine from a fresh peer |
| HttpServices.HttpService.constructor | src/signaling/http_service.h:59 | the map starts empty |
| HttpServices.HttpService.CreatePeer | src/signaling/http_service.cpp:44-53 | a fresh peer under its id, a peer mapped to it before dropped, every other entry as it was; null without a V4L2Webrtc |
| HttpServices.HttpService.GetPeer | src/signaling/http_service.cpp:55-61 | the mapped peer, or null |
| HttpServices.HttpService.RemovePeerFromMap | src/signaling/http_service.cpp:63 | that key goes, no other |
| HttpServices.HttpService.HandlePost | src/signaling/http_service.cpp:158-178 | the new peer is mapped, has been given the offer, and will answer this session, having answered nothing yet |
| HttpServices.HttpService.GiveCandidates | src/signaling/http_service.cpp:207-210 | a connected peer ignores the candidates, another is given them all, in order |
| HttpServices.HttpService.HandlePatch | src/signaling/http_service.cpp:197-228 | the named peer is given the candidates of the body, and on `*` its description is rewritten with the body's credentials and set again, 200; otherwise 204; unknown ids change nothing, 422; no other peer changes |
| HttpServices.HttpService.HandleDelete | src/signaling/http_service.cpp:240-263 | the named peer is quiet and unmapped, 202; unknown ids change nothing, 422; no other peer changes |
| HttpServices.HttpService.RefreshEntry | src/signaling/http_service.cpp:79-89 | one turn of the cleaner keeps a connected entry and erases another, terminating its peer if nobody holds it |
| HttpServices.HttpService.RefreshPeerMap | src/signaling/http_service.cpp:77-90 | erasing while iterating, in any order, leaves exactly the connected entries with their peers untouched |
| Routes.ParseRoutes | src/signaling/http_service.cpp:295-305 | the getline loop computes the non-empty slash-free pieces |
| Routes.SegmentsOfJoined | src/signaling/http_service.cpp:295-305 | parsing a + "/" + b is parsing a, then b |
| Routes.RenderThenParse | src/signaling/http_service.cpp:295-305 | parsing a rendered path gives its segments back |
| Routes.SegmentsAreSegments | src/signaling/http_service.cpp:300-302 | every route is non-empty and slash-free |
| Routes.SegmentsCoverTarget | src/signaling/http_service.cpp:295-305 | the routes put together are the target without its slashes |
| Routes.ResourcePathParses | src/signaling/http_service.cpp:166 | the path of a Location parses to "resource" and the id |
| SdpScanner.FindLeftmost | src/signaling/http_service.cpp:319 | the search finds the leftmost match, and only that |
| SdpScanner.RunEndIs | src/signaling/http_service.cpp:309-311 | a class repetition takes the longest run, and only that |
| SdpScanner.CaptureByLine | src/signaling/http_service.cpp:325-333 | a credential comes from the first line that has one |
| SdpScanner.CaptureAllByLine | src/signaling/http_service.cpp:311-323 | on every text the search restarted at each suffix yields one run per matching line, in order |
| SdpRewrite.ReplaceAllByLine | src/rtc/rtc_peer.cpp:115-118 | on every text the global replacement works line by line |
| SdpRewrite.ReplacedLines | src/rtc/rtc_peer.cpp:117-118 | breaks and lines without the key are as before |
| SdpRewrite.CaptureReplaced | src/rtc/rtc_peer.cpp:117-118 | the attribute then reads as the new value, if there was anything to replace |
| SdpRewrite.LastReplacementWins | src/rtc/rtc_peer.cpp:117-118 | replacing twice is replacing once with the last value; so it is idempotent |
| SdpRewrite.Commute | src/rtc/rtc_peer.cpp:117-118 | where no line holds both keys the two replacements can be made in either order |
| SdpRewrite.OtherKeyKept | src/rtc/rtc_peer.cpp:117-118 | attributes with another key are found as before |
| SdpText.ParseCandidates | src/signaling/http_service.cpp:307-336 | the three searches give the credentials and one candidate per candidate line |
| SdpText.RewriteRemote | src/rtc/rtc_peer.cpp:114-118 | the two global replacements are the line-by-line rewrite |
| SdpText.RestartThenParse | src/rtc/rtc_peer.cpp:114-118 | after a restart parsing gives exactly the new credentials and the same candidates |
| SdpText.RestartOverrides | src/rtc/rtc_peer.cpp:114-118 | on every text two restarts are the later one alone; so a restart is idempotent |
| SdpText.RestartedLines | src/rtc/rtc_peer.cpp:114-118 | a restart works line by line; every break, and every line with neither key, stays as it is |
| SdpText.RestartReadsExactly | src/rtc/rtc_peer.cpp:114-118 | on every text the new ufrag is read back if and only if some line has its key not behind a pwd key, and the new pwd if and only if some line has its key not behind a ufrag key |
| SdpText.RestartCanLoseUfrag | src/rtc/rtc_peer.cpp:117-118 | a text on which the new ufrag is lost |
| SdpCandidates.CandidatesKeptExactly | src/rtc/rtc_peer.cpp:114-118 | on every text a restart leaves the candidates as they were if and only if it changes no line that names one |
| SdpCandidates.CandidatesAlwaysKeptExactly | src/rtc/rtc_peer.cpp:114-118 | they stay for all new credentials if and only if no line that names one has a ufrag or pwd to rewrite |
| SdpText.PrintThenParse | src/signaling/http_service.cpp:307-336 | parsing a fragment written out line by line gives back ufrag, pwd and every candidate in order |
| SdpLines.UfragRead | src/signaling/http_service.cpp:309-333 | in any text the first `a=ice-ufrag:` line gives the ufrag, up to the first white space |
| SdpLines.PwdRead | src/signaling/http_service.cpp:310-333 | so does the first `a=ice-pwd:` line the pwd |
| SdpLines.EmptyValuesUnread | src/signaling/http_service.cpp:309-333 | a key with nothing but white space behind it gives no value |
| SdpLines.CandidateRead | src/signaling/http_service.cpp:311-323 | in any text an `a=candidate:` line gives one candidate, the rest of the line, between those before and after |
| SdpLines.UfragLineRestarted | src/rtc/rtc_peer.cpp:115-117 | wherever an `a=ice-ufrag:` line stands, a restart puts the new ufrag into it and rewrites the rest on its own |
| SdpLines.PwdLineRestarted | src/rtc/rtc_peer.cpp:116-118 | so does it with the new pwd and an `a=ice-pwd:` line |
| SdpLines.EmptyLinesStay | src/rtc/rtc_peer.cpp:115-118 | keys with nothing behind them are left alone |
| Alignment.AlignUpIsLeast | src/common/v4l2_frame_buffer.h:46 | dividing and multiplying gives the least multiple at or above the value |
| Alignment.AlignUpsAgreeExactly | src/common/v4l2_frame_buffer.cpp:10-12 | masking agrees with it, for every power of two and every width, exactly where the sum does not wrap |
| Alignment.MaskWrapsToZero | src/common/v4l2_frame_buffer.cpp:10-12 | where it wraps, masking gives 0 |
| Alignment.TestIsExact | src/common/v4l2_frame_buffer.cpp:17-18 | align & (align - 1) is 0 exactly for powers of two |
| Alignment.StrideIsAligned | src/common/v4l2_frame_buffer.cpp:20 | the stride of at least 16 covers the width and is still a multiple of the alignment |
| I420Layout.GuardsAreExact | src/common/v4l2_frame_buffer.cpp:14-44 | Create gets past its checks exactly when the arguments are valid and the true size fits, and then nothing has wrapped |
| I420Layout.OverflowsAreExact | src/common/v4l2_frame_buffer.cpp:24-42 | which overflow error is thrown, in terms of the true sizes; the chroma one never |
| I420Layout.ArgumentErrors | src/common/v4l2_frame_buffer.cpp:14-19 | which argument is refused: sizes first, then an alignment that is no power of two, then their sum |
| I420Layout.SixtyFourBits | src/common/v4l2_frame_buffer.cpp:24-44 | with a 64-bit size_t every valid picture of int dimensions fits |
| I420Layout.TrueSizeAligned | src/common/v4l2_frame_buffer.cpp:36-42 | the raw total is already a multiple of the alignment |
| I420Layout.RoundUpIsIdle | src/common/v4l2_frame_buffer.cpp:44 | the unguarded last round-up changes nothing and cannot wrap |
| I420Samples.OffsetInPlane | src/common/v4l2_frame_buffer.cpp:20-55 | every sample lies inside its own plane and inside the allocation exactly unless the alignment is 1 and the width odd and above 16 |
| I420Samples.InjectiveExactly | src/common/v4l2_frame_buffer.cpp:20-55 | distinct samples have distinct bytes exactly unless the alignment is 1 and the width odd and above 16 |
| I420Samples.ByteSizeIs | src/common/v4l2_frame_buffer.h:35 | ByteSize is the allocation, less one row of U and V for odd heights |
| I420Samples.PackedFits | src/common/v4l2_frame_buffer.cpp:97-98 | a packed frame never exceeds the allocation |
| I420Samples.LumaPlacedExactly | src/common/v4l2_frame_buffer.cpp:97-98 | packed and strided luma agree exactly for stride equal to width, or one row |
| I420Samples.PlacedExactly | src/common/v4l2_frame_buffer.cpp:94-98 | packed and strided places agree for every sample exactly for widths that are multiples of 64 |
| FrameBuffers.I420Buffer.Create | src/common/v4l2_frame_buffer.cpp:14-57 | an allocation of the planned size with its plane pointers, or the error of the failing check |
| FrameBuffers.I420Buffer.constructor | src/common/v4l2_frame_buffer.cpp:51-55 | plane pointers at the plane starts |
| FrameBuffers.CopyBytes | src/common/v4l2_frame_buffer.cpp:98 | the bytes copied, the rest as before |
| FrameBuffers.V4L2FrameBuffer.constructor | src/common/v4l2_frame_buffer.cpp:67-72 | the buffer for a copy is large enough: its masked size never wraps |
| FrameBuffers.V4L2FrameBuffer.CopyBufferData | src/common/v4l2_frame_buffer.cpp:114-117 | from here on the frame's bytes are its own, as the driver's were |
| FrameBuffers.EverySampleRight | src/common/v4l2_frame_buffer.cpp:94-98 | equal bytes mean equal samples for a packed frame whose width is a multiple of 64 |
| FrameBuffers.V4L2FrameBuffer.ToI420 | src/common/v4l2_frame_buffer.cpp:94-112 | a YUV420 frame's bytes arrive exactly if they fit, and then every sample is where the planes have it |
| SubjectRuns.RegistrationOrder | src/common/interface/subject.h:39-43 | the vector is always in registration order, without repetition |
| SubjectRuns.LogIsExpected | src/common/interface/subject.h:16-54 | over every run each observer's log is exactly what was published while it was registered, held and subscribed, in order |
| SubjectRuns.PublishedInOrder | src/common/interface/subject.h:26-37 | one publication calls observers in registration order, each at most once, and leaves exactly the live ones |
| SubjectRuns.RemoveNullUnseen | src/common/interface/subject.h:50-54 | RemoveNullObservers put anywhere into a run changes no call |
| Subjects.Observable.Subscribe | src/common/interface/subject.h:16 | replaces the function |
| Subjects.Observable.UnSubscribe | src/common/interface/subject.h:17 | removes it |
| Subjects.TouchReachesSubject | src/common/interface/subject.h:16-20 | what a holder does to an Observable reaches the subject as that operation on its slot |
| Subjects.Subject.AsObservable | src/common/interface/subject.h:39-43 | a fresh observer at the end of the vector |
| Subjects.Subject.Visit | src/common/interface/subject.h:29-35 | one turn delivers and moves on, or erases and stays |
| Subjects.Subject.Next | src/common/interface/subject.h:26-37 | erasing while iterating ends, and is the filter and the ordered delivery of the specification |
| Subjects.Subject.UnSubscribe | src/common/interface/subject.h:45 | forgets every observer |
| Subjects.Subject.RemoveNullObservers | src/common/interface/subject.h:50-54 | keeps the live observers in order |
| V4L2Buffers.MappedIsHeld | src/common/v4l2_utils.cpp:239-287 | however far MMap gets, every mapping it made is live and held, with its length, by the buffer it was made for |
| V4L2Buffers.MapTurnsFill | src/common/v4l2_utils.cpp:240-284 | each turn touches its own buffer only, and closes and releases nothing |
| V4L2Buffers.PassingTurnMaps | src/common/v4l2_utils.cpp:250-281 | a turn that passes made one mapping of the queried length, and its buffer holds exactly that |
| V4L2Buffers.FailingTurnMapsNothing | src/common/v4l2_utils.cpp:250-281 | a turn passes exactly if every call asked of the kernel succeeds, and makes no mapping if it does not |
| V4L2Buffers.UnmapReleasesHeld | src/common/v4l2_utils.cpp:225-237 | UnMap releases each held mapping once, in order, with its own length |
| V4L2Buffers.MapThenUnmap | src/common/v4l2_utils.cpp:225-287 | MMap, even failing midway, then UnMap: live mappings as before, each made one released exactly once |
| V4L2Buffers.RemapLeaks | src/common/v4l2_utils.cpp:225-318 | resizing a group and mapping it again, however far that gets, and unmapping it leaves mapped exactly what was cut off or overwritten; the kernel is restored if and only if none of that held a mapping |
| V4L2Buffers.SecondUnmap | src/common/v4l2_utils.cpp:225-237 | a second UnMap releases nothing and closes every exported descriptor again |
| V4L2Buffers.V4L2BufferGroup.MapBuffer | src/common/v4l2_utils.cpp:241-281 | one turn of MMap's loop, with its three failures |
| V4L2Buffers.V4L2BufferGroup.MMap | src/common/v4l2_utils.cpp:239-287 | the turns up to the first that does not pass, and whether all pass |
| V4L2Buffers.V4L2BufferGroup.UnmapBuffer | src/common/v4l2_utils.cpp:227-235 | one turn of UnMap's loop |
| V4L2Buffers.V4L2BufferGroup.UnMap | src/common/v4l2_utils.cpp:225-237 | all turns |
| V4L2Buffers.V4L2BufferGroup.AllocateBuffer | src/common/v4l2_utils.cpp:289-318 | resizes the group and maps it where the memory is mapped memory and the driver grants it |
| V4L2Buffers.V4L2BufferGroup.DeallocateBuffer | src/common/v4l2_utils.cpp:320-339 | unmaps first, whatever the driver answers |
| CaptureRuns.ConservedStep | src/capturer/v4l2_capturer.cpp:35-133 | every step of thread, driver and destructor keeps ownership and order |
| CaptureRuns.BuffersConserved | src/capturer/v4l2_capturer.cpp:80-133 | in every run each buffer is owned by exactly one side, and the driver holds N less the failed requeues between frames |
| CaptureRuns.PublishesWhatWasTaken | src/capturer/v4l2_capturer.cpp:100-109 | observers are given what the driver had put there when it handed the buffer over, from mapped memory |
| CaptureRuns.HeldIsStable | src/capturer/v4l2_capturer.cpp:100-109 | no step changes a buffer the application holds |
| CaptureRuns.StarvedPublishesNothing | src/capturer/v4l2_capturer.cpp:107-109 | after N failed requeues no run publishes anything |
| CaptureRuns.NotStarvedPublishes | src/capturer/v4l2_capturer.cpp:80-110 | before that, between frames and until it is told to stop, some continuation publishes one more frame |
| CaptureRuns.UnmapsLast | src/capturer/v4l2_capturer.cpp:35-44 | memory goes only after the thread is done, and the driver owns nothing then exactly if it obeyed StreamOff or had nothing |
| CaptureEnds.EndAdvances | src/capturer/v4l2_capturer.cpp:35-44 | no deadlock: the step the destructor waits for brings it nearer its end, whatever the system call answers |
| CaptureEnds.EndNotSetBack | src/capturer/v4l2_capturer.cpp:35-44 | no livelock: no step of thread, driver or destructor sets it back |
| CaptureEnds.CanClose | src/capturer/v4l2_capturer.cpp:35-44 | from every run in which it has started the destructor can come to its end, with the memory unmapped |
| CaptureEnds.OneMoreFrame | src/capturer/v4l2_capturer.cpp:127-132 | once told to stop the thread publishes at most the frame it is at |
| CaptureEnds.RunsUntilStopped | src/capturer/v4l2_capturer.cpp:127-132 | and before that it does not end |
| Capturers.QueueBuffers | src/common/v4l2_utils.cpp:94-102 | queues the buffers in order up to the first refused |
| Capturers.ImageConserves | src/capturer/v4l2_capturer.cpp:80-110 | one CaptureImage takes the machine's steps and conserves the buffers |
| Capturers.V4L2Capturer.constructor | src/capturer/v4l2_capturer.cpp:24-33 | an empty group for mapped memory, nothing queued, nothing running |
| Capturers.V4L2Capturer.StartCapture | src/capturer/v4l2_capturer.cpp:122-133 | starts the thread exactly if every buffer was granted, mapped and queued, in the machine's first state |
| Capturers.V4L2Capturer.NextBuffer | src/capturer/v4l2_capturer.cpp:117-120 | publishes the buffer's bytes |
| Capturers.V4L2Capturer.CaptureImage | src/capturer/v4l2_capturer.cpp:80-110 | a timeout or failed dequeue changes nothing; a frame is published once, and only a failed requeue costs its buffer |
| Timestamps.PtsExact | src/encoder/libav_encoder.cpp:105-106 | the encoder's unsigned difference, stored as int64_t, is exact wherever the difference fits |
| Timestamps.ElapsedExact | src/rtc/rtc_peer.cpp:21-26 | the peer's is exact exactly from its start on |
| Timestamps.LatchSubtractsFirst | src/encoder/libav_encoder.cpp:87-106 | for a camera clock each result is the time since the first timestamp that is not zero |
| Timestamps.LatchKeepsClock | src/encoder/libav_encoder.cpp:87-106 | the results are non-negative, non-decreasing and free of wrap-around |
| Timestamps.ClosedIsUnseen | src/rtc/rtc_peer.cpp:19-28 | frames that pass while the track is closed leave no trace |
| Timestamps.PeerDurations | src/rtc/rtc_peer.cpp:17-28 | from camera to peer, for any opening and closing of the track: never negative, never decreasing, and a difference exact if and only if the earlier pts is not zero or the timestamps are equal |
| Timestamps.SecondFrameIsZeroToo | src/rtc/rtc_peer.cpp:21-26 | in every run a track open for the first two frames is sent duration 0 for both |
| TimestampMethods.LibAvEncoder.StampFrame | src/encoder/libav_encoder.cpp:87-106 | the latch in place gives the specified pts |
| TimestampMethods.Drain | src/encoder/libav_encoder.cpp:163-181 | hands on every ready packet in order, stops at the first answer that is none, and throws exactly on other errors |
| TimestampMethods.PeerSender.OnFrame | src/rtc/rtc_peer.cpp:19-28 | the peer's callback in place is the specified one |

## Left out

- RewriteRemote: does not model `$` in the new credentials, which the replacement would expand; no ice-char string has one.
- SdpText.Token is wider than ice-char of section 5.4 of RFC 8839: any text without white space, `=` and `$`.
- RtcPeer.Terminate: like the other methods of the class it is an uninterrupted call; what interleaves is the machine of `PeerMachine`.
- RtcPeer: `modified_desc_.release()` gives up the description without freeing it; the model drops it. `on_local_ice_fn_` is never registered and `mid` is never read, so neither is modelled.
- HttpSession is modelled as the HTTP thread's program in `ServiceMachine`, not as a class: its handlers interleave with the peers.
- ServiceMap.NeverStops takes PATCH and DELETE targets with fewer than two segments as excluded (`ServiceAnswers.OutOfRangeExactly` says which they are) and, as HandlePatch does, a remote description as present at an ICE restart.
- HttpService.CreatePeer: ids are parameters, since the UUID generator cannot be seen; in `ServiceMachine` there always is a `V4L2Webrtc`.
- Exceptions from parsing a remote description, and one of unspecified type, are not modelled.
- Data races on fields that are not atomic, and on the peer map: every step is atomic.
- Callbacks of the library that arrive at a peer already destroyed.
- Beast and Asio, HTTP headers other than Location, sockets, thread sleeping and time.
- V4L2FrameBuffer.ToI420: does not model the contents of MJPEG and H264 frames; the conversion is the library's. Frames made without a driver buffer are left out.
- Subject.Next: callbacks do not alter the subject while it iterates.
- V4L2Capturer.StartCapture: the process exits when it fails, which is not modelled further.
- TimestampMethods.Drain: the codec is taken to stop answering with packets at some point. The conversion of the peer's duration to double is not modelled.
- Setting up devices and codecs, argument parsing, logging and accessors: they would only add easy members.

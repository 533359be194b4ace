# SIP sequencer: a verified model

A Dafny model of the back-to-back user agent that sequences SIP calls through applications
before a PBX, with proofs about its concurrent call lifecycle, its SDP code, its flow tokens
and proxying, its media fork and the recorder's files.

The model has two halves that meet.

* **The step machine** (`Lifecycle.dfy`). A world is the port allocator, the registry and any
  number of calls. Each critical section on a call's lock, each allocator call and each
  registry call is one atomic step; what the network and the sockets do is chosen by the
  step's event. The bridge of a call has a program counter that carries the pairs in its
  hands; the goroutine that wins teardown has one too; re-INVITE and REFER handlers and other
  teardown attempts take their steps beside them, in any order. `Ownership`, `Conservation`,
  `Teardown`, `Registered` and `Negotiated` prove what holds in every world any run reaches.
* **The code in its own form**. Loops over lines, the allocator, the registry, the call
  object, the application chain, the setup phases, the mid-call handlers, the header edits of
  the proxy, the byte buffers of the recorder and the copy loop are methods with loops and
  mutable fields, each proved against a specification function; the laws are then proved
  about those functions. `EndingRuns.BridgeIsARun` shows that what the bridge method does, from
  the chain to the answered call or to the end of its teardown, is a run of the step machine;
  `CallObject.Uninterrupted`, `MidCall.ReInviteIsAStep` and `MidCall.ReferIsAStep` say so of
  teardown, re-INVITE and REFER.

The files, bottom up: `Wrappers`, `Octets`, `Text`; `Sdp` (readers, rewriter, builders),
`SdpLaws`, `AnchorLaws`, `SdpOffers`, `Recorder`, `TapNegotiation`, `Readers` (what is read, by
position), `RecorderAnswers`; `Ports`, `Registry`,
`Ledger` (sums of port pairs); `Lifecycle`, `Runs`, `Ownership`, `Conservation`, `Rest`,
`Teardown`, `Registered`, `Negotiated`; `Routing`, `CallObject`, `AppChain`, `ChainLaws`,
`Invites` (an application's turn and INVITE), `ChainAnswers`, `ChainRuns`, `Endings` (how a bridge
ends, as values), `Replies` (with what statuses and bodies), `EndingRuns`, `SetUp`, `MidCall`; `Base64`, `FlowToken`, `Proxy`; `RtpDump`, `Fork`, `Reaper`.

Sockets, the SIP transaction layer, the clock and the secured WebRTC leg appear as events or
parameters: whether a socket binds, what a leg answers, which datagrams are read, what time a
sweep happens at. A byte of SDP text is a `char`, whitespace is ASCII whitespace, and a
pattern of a routing rule is any predicate on strings. Whether a string is an IP literal is a
parameter of the SDP readers; how addresses are read and written is a parameter of the token
code, with the laws `FlowToken.Lawful` states (`FlowToken.LawfulExists` shows they can be met).

## What the code does not do

Some properties one would expect are false of the code. Each is kept as it is and stated with
its exact condition.

* **Taps can leak.** If another goroutine's teardown commits while a tap is stashed, the
  refused media registration (`internal/b2bua/bridge.go:526-532`, `:554-560`, `:621-628`)
  returns without releasing the stash, and a tap added after the release hook has read the tap
  list (`:572-580`, `:830-838`) is never released. `Conservation.Losing` names these two steps;
  a call at rest has given everything back if and only if it took neither
  (`Conservation.ConservedAtRest`; `Conservation.LeakExists` and `Rest.CleanRunExists` are runs
  of either kind).
* **Anchoring changes only the first connection line and the first audio port**
  (`internal/b2bua/sdp.go:451-465`), while the parser reads the last address and the last port
  that count. A peer that parses the anchored body arrives at the anchor if and only if the
  condition of `AnchorLaws.AnchorIsRead` holds; `AnchorLaws.AnchorNotRead` is a body with a
  session and a media address where it does not.
* **Line endings.** The rewriter's comment (`internal/b2bua/sdp.go:430-431`) promises other lines
  verbatim; a line passes through verbatim if and only if it does not end in two carriage returns
  (`SdpLaws.VerbatimLines`; `SdpLaws.VerbatimFails` is a body that loses one).
* **A tap answer that does not parse** is, by its comment (`internal/b2bua/bridge.go:406`),
  treated as an application failure. The code gives the tap back and goes on to record the leg
  and to count an invocation; no failure is counted and the policy is not applied. Exactly in
  this case an application that is of no use is not handled as failed
  (`ChainLaws.FailuresHandled`; `ChainLaws.MuteTapGoesOn` has the abort policy).
* **Applications' answers reach the PBX offer.** The code says they no longer feed the call's SDP
  (`internal/b2bua/bridge.go:443`). A tap that is given back (`:403-407`) leaves two pairs in
  another place of the free list, so which answers parse moves the port the PBX is offered, and on
  a small range decides whether it is offered anything (`ChainAnswers.AnswerMovesPort`). Nothing
  but the port ever differs (`ChainAnswers.AnswersMoveOnlyPort`), and it does not if and only if
  the condition of `ChainAnswers.SamePbxOffer` holds.
* **Popping a Route** removes the first one (removal takes only the first match, as the note at
  `internal/b2bua/proxy.go:86-88` says) and re-appends the others, so with two or more Routes
  the others are doubled (`internal/b2bua/proxy.go:209-215`, `Proxy.PopRoutes`).
* **An ACK's Max-Forwards** wraps at 0 (`Proxy.AckHops`).
* **A reply without a Via** ends the relaying handler: the code indexes past an empty list
  (`internal/b2bua/proxy.go:93`). `Proxy.ForwardAndRelay` says exactly when.
* **Long packets.** The 16-bit lengths of an rtpdump record wrap above 65527 bytes
  (`RtpDump.RtpdumpRoundTrip`). The theorem is about the encoder as a function; the recorder
  itself reads at most 1500 bytes (`applications/recording/recorder/record.go:257`), so its own
  files always round-trip.

## Model

| member | source | states |
|---|---|---|
| Ports.PortAllocator.Acquire | internal/b2bua/media.go:37-52 | the last released pair is taken first and leaves the free list; with none free the next port and its neighbour are, while they fit, and otherwise nothing; nothing else changes |
| Ports.PortAllocator.Release | internal/b2bua/media.go:55-59 | a released pair goes to the end of the free list and nothing else changes |
| Ports.LastGivenFirstTaken | internal/b2bua/media.go:37-59 | taking a pair right after one was given back takes that pair and restores the allocator |
| Ports.AllocatorExact | internal/b2bua/media.go:24-59 | over every history that releases only held pairs: each held pair is an even port and its odd neighbour inside the range, held once and not free; Acquire fails exactly when all floor((max-min+1)/2) pairs are held |
| Sdp.PortRangeRead | internal/b2bua/sdp.go:353-376 | any text is accepted as a range exactly when it is two numbers joined by its first dash, the first positive, even and below the second, and is read as those two |
| Sdp.ExtractAudioCodecs | internal/b2bua/sdp.go:20-51 | the loop over lines returns the formats, rtpmaps and fmtps of the first audio section, or the error, as defined by position and block |
| Sdp.SelectedAudioCodec | internal/b2bua/sdp.go:87-126 | the loop returns the codec of the first payload type: its first rtpmap in the audio section, else the static assignment, else an unmapped codec |
| Sdp.OfferIsWebRTC | internal/b2bua/sdp.go:169-186 | true exactly when some line carries a fingerprint or a secure profile |
| Sdp.ParseMedia | internal/b2bua/sdp.go:381-428 | the scan with its hidden state equals the fold over lines: media address before session address, port of the audio line, each error |
| Sdp.RewriteToAnchor | internal/b2bua/sdp.go:432-476 | the line loop with its two flags equals the positional definition: only the first connection line and the first audio line change, and each line keeps whether it ended in a carriage return |
| Sdp.BuildTapOffer | internal/b2bua/sdp.go:228-253 | the builder emits two recvonly audio sections with the extracted codecs |
| Sdp.BuildInactiveOffer | internal/b2bua/sdp.go:257-281 | the builder emits one inactive audio section on port 0 |
| Sdp.BuildPlainOfferFromWebRTC | internal/b2bua/sdp.go:287-309 | the builder emits one plain sendrecv audio section |
| Sdp.ParseTapAnswer | internal/b2bua/sdp.go:313-349 | the scan equals the fold: two streams, each with its own or the session's address |
| Readers.TapAnswerReads | internal/b2bua/sdp.go:313-349 | a tap answer is accepted exactly when every audio line has a readable port and there are at least two; the port of each of the first two streams is the second field of its audio line, its host the last address between that line and the next audio line, without one the last address before the first audio line, and without that the empty host |
| Readers.MediaReads | internal/b2bua/sdp.go:381-428 | what parsing a body with one audio line reads: its second field as the port, as the host the last address up to the end of its section or, when that is empty, the first one behind it; or which error |
| Readers.ExtractReads | internal/b2bua/sdp.go:20-51 | extraction accepts a first audio line of at least four fields; it gives the fields from the fourth on, and just those rtpmap and fmtp lines that stand in its section |
| Readers.NoMediaReads | internal/b2bua/sdp.go:20-51 | without an audio line nothing is read: extraction, selection and parsing all say so |
| Readers.MappedCodec | internal/b2bua/sdp.go:87-126 | the selected codec is that of the first rtpmap line of the first audio section that maps its first payload type |
| Readers.UnmappedCodec | internal/b2bua/sdp.go:109-126 | without one, the types 0, 3, 8, 9 and 18 are PCMU, GSM, PCMA, G722 and G729 at 8000, any other is a codec without a name, and a negative one is an error |
| Readers.RtpMapReads | internal/b2bua/sdp.go:131-152 | a rtpmap line is read as its payload type, name and clock rate, whatever follows a second slash |
| Readers.MismatchIs | internal/b2bua/sdp.go:157-162 | two selected codecs differ exactly when their names differ but for case or their clock rates do, or, when neither has a name, their payload types |
| Readers.WebRtcIs | internal/b2bua/sdp.go:169-186 | an offer is a webphone's exactly when an audio line names a SAVP profile, SAVPF among them, or a line carries a fingerprint |
| Readers.WebphonesOffer | internal/b2bua/sdp.go:169-186 | in particular an audio line with UDP/TLS/RTP/SAVPF, or any line with a fingerprint |
| Readers.RecorderReads | applications/recording/recorder/sdp.go:17-52 | the recorder accepts an offer exactly when every audio line names a format and there is at least one; it reads a stream for each, in order, with the formats of the line and the rtpmap and fmtp lines of its own section |
| SdpLaws.RewriteAbsorbs | internal/b2bua/sdp.go:432-476 | for every accepted SDP and host without line breaks, rewriting twice is only the last rewrite |
| SdpLaws.RewriteLines | internal/b2bua/sdp.go:432-476 | for every accepted SDP the rewrite has the same number of lines, the first connection line and the first audio line are the anchored ones, every other line reads as before, and each line keeps whether it ended in a carriage return |
| SdpLaws.VerbatimLines | internal/b2bua/sdp.go:430-476 | a raw line that is neither the first connection line nor the first audio line passes through verbatim if and only if it does not end in two carriage returns |
| SdpLaws.VerbatimFails | internal/b2bua/sdp.go:430-431 | a one-line body that loses a carriage return, against the rewriter's comment |
| SdpLaws.RewriteKeepsCodecs | internal/b2bua/sdp.go:20-51 | for every accepted SDP, codec extraction and codec selection give the same result, or the same error, before and after anchoring |
| SdpLaws.CodecsMatchEquivalence | internal/b2bua/sdp.go:157-162 | agreement of codecs is reflexive, symmetric and transitive |
| SdpLaws.PlainPathNeverMismatches | internal/b2bua/bridge.go:755-785 | whatever the PBX answers, the plain path never counts a codec mismatch |
| SdpLaws.ParsedCanBeAnchored | internal/b2bua/midcall.go:107-132 | a body parseMedia accepts is accepted by rewriteToAnchor if and only if the host is not empty and the port positive |
| AnchorLaws.AnchorIsRead | internal/b2bua/sdp.go:381-476 | for every body the rewriter accepts, with any number of audio sections, parsing the rewrite yields exactly the anchor host and port if and only if the host is an address, the port fits, every other audio port can be read, the last audio line is the first or names the port already, and the address that counts is on the first connection line or is the host already |
| AnchorLaws.AnchorIsReadPlainly | internal/b2bua/sdp.go:381-476 | with one audio line and some connection line: if and only if at most one connection line stands before the end of the audio section, or the one that decides already names the host |
| AnchorLaws.AnchorIsReadOnce | internal/b2bua/sdp.go:381-476 | with exactly one connection line and one audio line, wherever they sit, parsing the rewrite yields exactly the anchor host and port |
| AnchorLaws.AnchorNotRead | internal/b2bua/sdp.go:451-453 | a body with a session and a media address is accepted by the rewriter and not read back at the anchor |
| SdpOffers.BuildersUndoExtraction | internal/b2bua/sdp.go:228-309 | extracting from the tap, inactive or plain offer gives what was extracted from the source offer |
| SdpOffers.PlainOfferIsPlain | internal/b2bua/sdp.go:287-309 | the plain offer built from a WebRTC offer is not classified as WebRTC and parses back to its host and port |
| Recorder.ParseOffer | applications/recording/recorder/sdp.go:17-52 | the recorder's loop with its current-stream pointer equals the fold over lines |
| Recorder.BuildAnswer | applications/recording/recorder/sdp.go:56-82 | the recorder's answer is its head and one block a stream, or the error |
| TapNegotiation.RecorderReadsOffer | applications/recording/recorder/sdp.go:17-52 | the recorder reads exactly two streams, each with the call's formats, rtpmaps and fmtps, from a tap offer |
| TapNegotiation.SequencerReadsAnswer | internal/b2bua/sdp.go:313-349 | the sequencer reads the two host and port pairs of an answer in order |
| TapNegotiation.TapRoundTrip | internal/b2bua/sdp.go:228-349 | end to end: for any offer with audio, the recorder answers the tap offer, its answer has exactly two streams with the call's formats, rtpmaps and fmtps, and the sequencer recovers the recorder's two host and port pairs, caller then callee |
| RecorderAnswers.AnswerKeepsStreams | applications/recording/recorder/sdp.go:56-82 | for any offer the recorder accepts, however many streams it has, there is an answer exactly when there is a port for each; the recorder reads the offer's streams from it, the sequencer one host and port for each in the same order, and every section ends receive-only |
| Ownership.LinearOwnership | internal/b2bua/bridge.go:103-114 | in every world any interleaving of any number of calls can reach, each minted pair is in exactly one place: free once, or owned once by one call; no two calls share a pair |
| Ownership.OwnedStep | internal/b2bua/bridge.go:242-288 | one step of a call leaves what everybody else holds as it was and keeps the allocator well formed |
| Ownership.StepKeeps | internal/b2bua/bridge.go:856-866 | every action keeps the sum of all holdings equal to the pairs that are out |
| Conservation.ConservedAtRest | internal/b2bua/bridge.go:521-532 | a call at rest owns nothing if and only if none of its steps lost a tap: registration refused with taps stashed, or a tap added after the hook read the tap list |
| Conservation.TaplessConserved | internal/b2bua/bridge.go:472-535 | a call that never started a tap has given every pair back at rest, for every interleaving |
| Conservation.SettledConserved | internal/b2bua/bridge.go:830-838 | a call has given every pair back at rest if each foreign teardown committed when its taps were settled |
| Conservation.EverythingBack | internal/b2bua/call.go:109-144 | when all calls are at rest and none lost a tap, the free list is exactly the pairs ever minted |
| Conservation.LostForever | internal/b2bua/bridge.go:554-560 | the pairs of a lost tap are in no later free list, whatever happens afterwards |
| Conservation.LeakExists | internal/b2bua/bridge.go:554-560 | on every range with room for a tap there is a run after which a call is at rest and two pairs are lost |
| Rest.BridgeEnds | internal/b2bua/bridge.go:193-220 | under every interleaving of any calls, the bridge of a call takes at most 16 steps an application and 13 more |
| Rest.RestReachable | internal/b2bua/call.go:109-169 | from every world any run reaches, some continuation brings a given call to rest |
| Rest.CleanRunExists | internal/b2bua/bridge.go:830-838 | on every range with room for a tap there is a run that takes a tap, loses nothing, and ends at rest with everything free |
| Teardown.TeardownOnce | internal/b2bua/call.go:109-169 | in every run at most one teardown attempt of a call passes the guard, and what is done is an initial part of: commit, release hook if registered, deregister, one BYE for each leg recorded at that moment; nothing is repeated, and the inbound leg gets a BYE only if the call was established |
| Teardown.LegsAtAre | internal/b2bua/call.go:118-137 | the legs recorded at the commitment are exactly the application legs, the PBX leg, the transfer target, and the inbound leg when established |
| Teardown.EffectsInTurn | internal/b2bua/call.go:109-169 | the commitment is first, the hook comes before the deregistration and every BYE after it, one for each leg in the order they were recorded |
| Teardown.StaysDown | internal/b2bua/state.go:45-53 | a call that is tearing down stays so in every continuation |
| Registered.IndexesAgree | internal/b2bua/registry.go:13-43 | in every reachable world the two indexes agree on every call, hold exactly the calls not deregistered, and nothing else |
| Registry.Calls.Register | internal/b2bua/registry.go:13-17 | the id index gains the call, the dialog index is unchanged |
| Registry.Calls.RegisterDialog | internal/b2bua/registry.go:19-26 | the dialog index gains the call unless the dialog id is empty |
| Registry.Calls.Deregister | internal/b2bua/registry.go:36-43 | both indexes lose the call; an empty dialog id is tolerated |
| Registry.Calls.GetByDialog | internal/b2bua/registry.go:28-33 | the call registered under the dialog id, if any |
| Negotiated.RemotesFollowAnswer | internal/b2bua/midcall.go:115-124 | in every reachable established call the PBX side's remotes are the host, port and port+1 parsed from the stored PBX answer |
| Negotiated.RefreshRepeats | internal/b2bua/midcall.go:36-48 | a session refresh on an established plain call never fails and repeats the last anchored answer byte for byte |
| Negotiated.AnchoringNeverFails | internal/b2bua/midcall.go:126-132 | the error branches after a parsed PBX answer cannot be taken in any reachable state |
| Negotiated.EndpointAnchored | internal/b2bua/bridge.go:814-823 | in every reachable established plain call no codec mismatch is counted for the endpoint's answer, and with one connection and one audio line the endpoint reads the sequencer's own host and port |
| Negotiated.MidCallFrame | internal/b2bua/refer.go:12-15 | however an established call continues, its application legs, PBX leg and id stay; without a committed re-INVITE so do the stored answer, the PBX remotes and what a refresh answers |
| CallObject.ReleaseMedia | internal/b2bua/bridge.go:103-114 | the hook closes the session and gives back the fixed pairs and then each registered tap's two |
| CallObject.BridgedCall.RegisterMedia | internal/b2bua/call.go:96-104 | the session and hook are recorded unless the call is tearing down, in which case nothing changes |
| CallObject.BridgedCall.Teardown | internal/b2bua/call.go:109-169 | the first attempt frees the hook's and the taps' pairs, deregisters and leaves the trace of one commitment, hook, deregistration and one BYE a leg; later attempts change nothing |
| CallObject.BridgedCall.ReleasePendingTaps | internal/b2bua/bridge.go:856-866 | the stash is emptied and both pairs of each stashed tap are given back, in order |
| CallObject.BridgedCall.Establish | internal/b2bua/bridge.go:830-838 | a call in setup becomes established, every stashed tap is put on the session in order and the stash is empty |
| CallObject.Uninterrupted | internal/b2bua/call.go:109-169 | the step machine's teardown, when no other step interrupts it, frees the same pairs and leaves the same trace as the Teardown method |
| AppChain.AcquireTap | internal/b2bua/bridge.go:259-288 | the acquisition with its error paths equals the specification function |
| ChainLaws.TryTapAllOrNothing | internal/b2bua/bridge.go:256-288 | an acquired tap takes exactly its two pairs out; a failed acquisition leaves what is out as it was |
| ChainLaws.TryTapRoom | internal/b2bua/bridge.go:249-288 | acquisition succeeds exactly when two pairs can be had and both sides bind; exhaustion is reported exactly when two cannot be had |
| Invites.TurnVerdict | internal/b2bua/bridge.go:308-453 | what each outcome of an application's turn does to the call: 500 whatever the policy for a bad URI or an offer without audio; with the abort policy 503 without ports, 500 when a tap cannot be bound, 503 when the leg is not originated or times out, the application's own status when it rejects; and otherwise the next application |
| Invites.TappedInvite | internal/b2bua/bridge.go:318-369 | a tapped application is invited with the call's codecs in two receive-only sections, the caller's on the first pair acquired and the callee's on the second; the tap kept is that one |
| Invites.UntappedInvite | internal/b2bua/bridge.go:351-369 | an untapped application is invited with the call's codecs in one inactive section on port 0 |
| AppChain.RunApp | internal/b2bua/bridge.go:308-453 | one turn of the loop does to allocator, stash, legs, INVITEs and counters what one step of the fold does |
| AppChain.RunAppChain | internal/b2bua/bridge.go:307-455 | the loop is the fold; on false its status was answered, the stash is back and the call is down |
| ChainLaws.ChainOutcome | internal/b2bua/bridge.go:304-455 | the chain is cut at the first application that must stop it, with that application's status; the INVITEs go to exactly the matching applications whose tap and offer could be set up, in order, once each; counted as failed, once, are exactly those whose tap or leg failed, and as invoked exactly those whose leg answered; the legs recorded are those that answered, with their answers, in order; one tap is kept for each tapped leg whose answer is a tap answer |
| ChainLaws.FailuresHandled | internal/b2bua/bridge.go:401-413 | an application attempted without a hard error is handled as failed (counted, policy applied, no leg) exactly when it was of no use, except if and only if it answered the tap offer with something else than a tap answer; an answered leg is always recorded and counted as invoked, never as failed, and its tap is given back if and only if its answer is no tap answer |
| ChainLaws.MuteTapGoesOn | internal/b2bua/bridge.go:403-407 | a tapped application with the abort policy answers with an empty body: the call goes on, the leg is recorded, no failure is counted and the tap is back |
| ChainLaws.ToInviteIs | internal/config/routing.go:45-59 | the reference list of invited applications names exactly those below the cut whose rule matches, whose URI parses, whose tap could be set up and whose offer could be built |
| ChainLaws.ToInviteInOrder | internal/b2bua/bridge.go:308-313 | the reference list is in configuration order and repeats nobody |
| ChainLaws.ChainHolds | internal/b2bua/bridge.go:425-431 | the call holds exactly two pairs a stashed tap; giving the stash back leaves nothing held |
| ChainAnswers.PbxPairIs | internal/b2bua/bridge.go:483-606 | there is a PBX offer exactly when no application stops the call and the pairs its sides take are left, two on a plain call and one on a webphone's; and its pair is the one at a stated place among those the allocator would hand out, decided by how many taps were kept and whether those given back since are odd in number |
| ChainAnswers.AnswersMoveOnlyPort | internal/b2bua/bridge.go:443-443 | two runs that differ only in what applications answered, of a plain or a webphone's call, in both of which the PBX is made an offer, offer it the same in every line but the first audio line, and there but for the port |
| ChainAnswers.SamePbxOffer | internal/b2bua/bridge.go:403-407 | and they offer it the same to the byte if and only if equally many taps are kept and those given back since the last one kept are odd in number in both or in neither (or there is no audio line or no anchoring) |
| ChainAnswers.AnswersDoNotReachPbx | internal/b2bua/bridge.go:443-443 | the sufficient case: when each pair of answers is a tap answer in both runs or in neither, the offer is the same, and so is whether there is one |
| ChainAnswers.AnswerMovesPort | internal/b2bua/bridge.go:403-407 | for every offer with audio one tapped application's answer decides between the first and the fourth pair's port, on a webphone's call between the second and the third's, or on a small range between an offer and none |
| ChainRuns.ChainIsARun | internal/b2bua/bridge.go:193-230 | the loop's fold is a run of the step machine's bridge, through to the torn-down call when the chain is cut |
| Routing.EqualMethod | internal/config/routing.go:89-107 | the byte loop is equality up to ASCII case |
| Routing.MatchesMeans | internal/config/routing.go:45-59 | a rule matches exactly when its method is empty or names the request's up to case, its from pattern admits the From address and its to pattern the To address; an absent pattern or rule asks nothing |
| Routing.VerbLetters | internal/config/routing.go:89-107 | two methods are the same exactly when they are equally long and letter by letter the same or the capital and the small form of one letter of A to Z |
| Routing.MatchesEachField | internal/config/routing.go:42-59 | a rule matches exactly what each of its fields would match alone; an empty or absent rule matches everything |
| Routing.VerbCase | internal/config/routing.go:49-51 | the case of the method never matters, on either side |
| SetUp.AnchorMedia | internal/b2bua/bridge.go:472-535 | either the hook covers the two acquired pairs and the endpoint side faces the parsed offer, or one final response was sent and everything is back, or the call was tearing down: the two pairs are back and the stash is left |
| SetUp.ReachPbx | internal/b2bua/bridge.go:682-746 | 500 for a bad URI, 503 when no leg is originated or it times out, the PBX's own status when it rejects, 488 for an answer without media, and otherwise its raw answer; the answer is stored as soon as it comes, and the PBX side faces it only if it describes media; the offer dialed is recorded |
| Endings.PlainAnswerSure | internal/b2bua/bridge.go:804-823 | with a real endpoint port the caller is answered exactly when the offer could be anchored and the PBX answered with media: the last error branch is dead; and no codec mismatch is counted |
| SetUp.ReportCodecAgreement | internal/b2bua/bridge.go:755-785 | a mismatch is counted exactly when both bodies select a codec and the codecs do not match |
| SetUp.DialPbx | internal/b2bua/bridge.go:791-852 | the call, the allocator, the offer dialed and the final response end as PlainDial says: established with its taps on the session and a 200 whose body is the PBX's answer anchored at the endpoint side's own port, or down with exactly the right status and all it held back |
| SetUp.AnchorWebRtc | internal/b2bua/bridge.go:544-563 | the secured session is registered with an empty hook, or one 488 was sent and the stash is back, or the call was tearing down and the stash is left |
| SetUp.DialSecured | internal/b2bua/bridge.go:630-674 | a webphone's call ends as SecuredDial says; when it is up, its one 200 carried the secured leg's own SDP; the PBX is dialed with the plain offer at the PBX side's port; a mismatch is counted exactly when both select codecs that differ |
| SetUp.TakePbxSide | internal/b2bua/bridge.go:602-628 | the PBX pair is acquired, bound and registered on the session; or the call fails with 503 or 500 and the pair and all else is back; or registration is refused, and then the pair is back and the stash is left |
| SetUp.BridgeSecured | internal/b2bua/bridge.go:602-674 | the secured path from its PBX side on ends as SecuredRest says, answered with the secured leg's own SDP when it is up, or is refused with the stash left |
| SetUp.BridgeCall | internal/b2bua/bridge.go:193-220 | from a fresh call, plain or webphone, the call, the allocator, the offer the PBX is dialed with and the one final response end exactly as BridgeEnd says; a 200 carries the secured leg's own SDP on a webphone's call and the PBX's raw answer anchored at the endpoint side's own port on a plain one; a call answered with a 200 that was delivered is established and holds exactly its hook's and taps' pairs, any other is down and every pair from any phase is back |
| Replies.LegReply | internal/b2bua/bridge.go:682-746 | what the PBX leg comes to: 500 for a bad URI, 503 when it is not originated or times out, the PBX's own status when it rejects, 488 for an answer without media, and otherwise the raw answer |
| Replies.PlainReply | internal/b2bua/bridge.go:472-535 | a plain caller is answered 488 for an offer without media, 503 without two pairs, 500 when one cannot be bound or the offer cannot be anchored, what the PBX leg comes to, and otherwise the PBX's answer anchored at the first of the two pairs |
| Replies.SecuredReply | internal/b2bua/bridge.go:544-674 | a webphone is answered 488 when its secured leg does not come up, 503 without a pair, 500 when it cannot be bound or the offer has no audio, what the PBX leg comes to, and otherwise the secured leg's own SDP |
| Replies.BridgeDials | internal/b2bua/bridge.go:630-636 | the PBX is dialed exactly when its side has a pair, the offer at that pair can be made, the sides bind, the endpoint's leg is there and the URI parses; and with that offer, the one the laws of ChainAnswers are about |
| Invites.WebphoneOffer | internal/b2bua/sdp.go:287-309 | of a webphone's call the PBX is offered the call's codecs in one sendrecv section on the port given |
| Endings.DownIs | internal/b2bua/bridge.go:226-230 | going down gives back the stash, then the hook's pairs and the taps', and leaves the whole trace of one teardown; legs, taps and negotiation stay |
| Endings.BridgeBalances | internal/b2bua/bridge.go:193-230 | whatever applications, network and sockets do, an established call holds exactly what is out on its account, and any other end leaves the allocator with what was out before |
| Endings.EndStates | internal/b2bua/bridge.go:193-220 | a bridge ends with an established call exactly when the caller was answered with a 200 that was delivered, and otherwise torn down; its stash is empty in either case |
| EndingRuns.BridgeIsARun | internal/b2bua/bridge.go:193-220 | for every configuration, network and allocator, BridgeEnd is where a run of the step machine's bridge, and then of its teardown winner, ends: same allocator, state, hook, taps, legs, negotiation and teardown trace |
| MidCall.HandleReInvite | internal/b2bua/midcall.go:13-139 | whatever others do to the call between the two critical sections: 481 when not established, 488 on a webphone's call, for a body without media or for a PBX answer without, 500 when it cannot be anchored or the PBX gave no Contact, 503 when the PBX is not reached, the PBX's own status and body when it rejects, and 200 otherwise; with the 200 both remotes and the stored answer are replaced together and nothing else; otherwise what the others left stays; a refresh answers the answer stored when it came in, anchored |
| MidCall.ReInviteIsAStep | internal/b2bua/midcall.go:115-132 | from any state the others leave, the step machine's commit of a re-INVITE is possible exactly when the PBX answer describes media, writes what HandleReInvite writes, and records as the endpoint's answer the body of its 200 |
| MidCall.Transfer | internal/b2bua/refer.go:28-133 | whatever others do before the second critical section, a transfer goes through exactly when the stored answer can be anchored and the target answers with media; then the endpoint side sends to the target's host and port and the target is recorded and nothing else is written; any other outcome writes nothing; what the referrer and the target hear, a NOTIFY only if the referrer gave a Contact |
| MidCall.HeardIs | internal/b2bua/refer.go:44-140 | outcome by outcome what the referrer is notified of: 400 for the Refer-To, 500 when there is no offer, 503 for a target not reached or not answering, 488 for its answer without media, 200; the target gets its BYE before that exactly in the last two failures after it was dialed |
| MidCall.HandleRefer | internal/b2bua/refer.go:28-140 | and whatever others do while the referrer is notified, a completed transfer then detaches the inbound leg and says BYE to it, and does nothing else; the same messages in the same order |
| MidCall.ReferIsAStep | internal/b2bua/refer.go:117-120 | from any state the others leave, the step machine's commit of a transfer is possible, and writes what Transfer writes; its other outcome writes nothing |
| FlowToken.ParseMint | internal/b2bua/flowtoken.go:42-104 | parsing a minted token gives the flow with small-letter transport and canonical address; the token is 10 or 26 URL-safe letters |
| FlowToken.MintParse | internal/b2bua/flowtoken.go:78-104 | every flow a token parses to can be minted, and the new token parses to the same flow |
| FlowToken.TokenOf | internal/b2bua/flowtoken.go:42-104 | for a source in host:port form the token holds the transport's number (udp 0, tcp 1, tls 2, ws 3, wss 4), the address's 4 or 16 bytes and the port, high byte first, and is read back as that address with the same port and transport |
| FlowToken.MintRefuses | internal/b2bua/flowtoken.go:42-60 | a token is minted exactly when the transport is one of the five, the source is host:port, its host an address and its port a number below 65536 |
| FlowToken.ParseReads | internal/b2bua/flowtoken.go:78-104 | a token is read exactly when it decodes to 7 or 19 bytes and its first is at most 4; the address is the bytes behind it, the port the last two |
| FlowToken.SplitIs | internal/b2bua/flowtoken.go:47-50 | a text splits into a host and a port exactly when the port has no colon or bracket, the host no bracket, and it is the host in brackets, or a host without a colon, before a colon and the port |
| FlowToken.SplitJoined | internal/b2bua/flowtoken.go:47-50 | a bracket-free host and a port come back from the joined address, with brackets exactly when the host has a colon |
| Base64.DecodeEncode | internal/b2bua/flowtoken.go:70-79 | base64url decoding undoes encoding for every byte string |
| Base64.FirstLetters | internal/b2bua/flowtoken.go:70-70 | the first four letters are those of the first three bytes, six bits each from the highest, and the others those of the remaining bytes |
| Base64.GroupNumber | internal/b2bua/flowtoken.go:70-70 | three bytes as one number of 24 bits are the four six-bit values as one number, the highest first |
| Base64.LetterIs | internal/b2bua/flowtoken.go:70-70 | the alphabet: A to Z, a to z, 0 to 9, dash and underscore, in that order |
| Proxy.Message.RemoveHeader | internal/b2bua/proxy.go:86-92 | only the first header of the kind is removed |
| Proxy.StripVia | internal/b2bua/proxy.go:84-95 | the top Via is gone, the others keep their order, and everything that is not a Via stays in order |
| Proxy.BuildForward | internal/b2bua/proxy.go:122-146 | the clone's headers are those it came with, without the first Max-Forwards and with one appended, one less in 32 bits or 70, and then the hooks applied in order |
| Proxy.ForwardAt | internal/b2bua/proxy.go:122-134 | without a hook every header but the first Max-Forwards stays where it is, and the lowered one, wrapping at 0, is last |
| Proxy.ForwardWithout | internal/b2bua/proxy.go:122-134 | without a Max-Forwards all headers stay and one of 70 is last |
| Proxy.TravelSpends | internal/b2bua/proxy.go:53-66 | along any chain of hops a request is forwarded exactly as often as its Max-Forwards headers allow if the chain is that long, and then refused: n times with the one header n, 71 times without one; with several the first is checked and dropped as each hop appends its own |
| Proxy.TravelStacks | internal/b2bua/proxy.go:68-70 | each hop sends the request with its own Via on top of those it came with |
| Proxy.ResponseRetraces | internal/b2bua/proxy.go:84-95 | a reply that carries the Vias hop j sent comes back through hops j to 0: each takes its own Via off, and the originator gets it with its own Vias, the same status and everything else unchanged in order |
| Proxy.ForwardAndRelay | internal/b2bua/proxy.go:53-114 | 483 without hops left, the fault when it cannot be sent, otherwise the replies up to the first final one in order with their top Via off; exactly one final response, last, unless the channel was closed; the handler goes down exactly at a reply without a Via |
| Proxy.AnsweredMeans | internal/b2bua/proxy.go:77-114 | when some reply is final the first final one is the last answer, with its status; when none is, the last answer is the given status, or 408 when the server stops, or there is none when the channel is closed |
| Proxy.AckHops | internal/b2bua/proxy.go:148-156 | an ACK's Max-Forwards goes down by one if and only if it was not 0; at 0 it wraps to the largest 32-bit number |
| Proxy.PopRoutes | internal/b2bua/proxy.go:207-215 | after the pop the remaining Routes appear twice; they are the rest of the list if and only if there was one Route |
| Proxy.PoppedAt | internal/b2bua/proxy.go:207-215 | a single Route is taken out of its place and nothing else is touched |
| Proxy.HandleRegister | internal/b2bua/register.go:17-46 | the REGISTER is sent if and only if the flow can be encoded, the next hop parses, there are hops left and the transport takes it; then with the flow's Path at its end and its replies relayed; otherwise answered 500, 483 or 502, each exactly when it should |
| Proxy.OnlyDecoded | internal/b2bua/proxy.go:181-203 | a request is dispatched if and only if its top Route is ours with a token that decodes, and only to the decoded address or, coming from there, to its own target |
| Proxy.PathRouteTrip | internal/b2bua/proxy.go:185-240 | a request whose only Route is the Path minted at REGISTER goes to that flow's address and transport, or to its own target if it came from that address; the Route is gone, an INVITE to the phone carries it as Record-Route in front, and nothing else is done to any request; an ACK and only an ACK goes statelessly |
| Proxy.RouteAlongFlow | internal/b2bua/proxy.go:148-240 | a request that is not ours is neither sent nor answered; an ACK of ours is sent to its flow whenever it can be written and nobody is answered; any other is sent if and only if it has hops left and the transport takes it, its replies relayed with 480 for want of a final one, and otherwise its originator gets the one answer 483 or 480 |
| RtpDump.RtpdumpRecord | applications/recording/recorder/rtpdump.go:39-47 | the buffer filled in place is the two 16-bit lengths, which wrap, the offset and the packet |
| RtpDump.RtpdumpFileHeader | applications/recording/recorder/rtpdump.go:19-30 | the text line and the 16 bytes behind it |
| RtpDump.RecordReads | applications/recording/recorder/rtpdump.go:39-47 | a record read back: bytes 0 and 1 are the packet's length and 8 in 16 bits, 2 and 3 its length, 4 to 7 the offset, and then the packet |
| RtpDump.BinaryReads | applications/recording/recorder/rtpdump.go:19-30 | the 16 bytes read back: seconds, microseconds, the address or zeros, the port, two zeros |
| RtpDump.HeaderReads | applications/recording/recorder/rtpdump.go:19-30 | the header is the line that names the format, the source and its port, a line feed, and those 16 bytes |
| RtpDump.DecodeRtpdump | applications/recording/recorder/rtpdump_test.go:67-92 | the consuming loop equals the recursive definition, including the index error on a length past the end |
| RtpDump.RtpdumpRoundTrip | applications/recording/recorder/rtpdump.go:19-47 | decoding header and records returns exactly the packets written if and only if each is at most 65527 bytes |
| Fork.Direction.CopyLegRtp | internal/b2bua/media.go:324-353 | the loop through one reused buffer leaves on the far leg and the taps what the stream of turns says, each datagram read and accepted as its first 1500 bytes, and marks activity once for each packet read |
| Fork.ForkFidelity | internal/b2bua/media.go:320-353 | the far leg gets exactly the packets read before the first failure, in order, each as its first 1500 bytes; a tap that never fails gets exactly those |
| Fork.ForkExact | internal/b2bua/media.go:320-353 | when no datagram is longer than 1500 bytes, packet i on the far leg is datagram i, byte for byte |
| Fork.TapMisses | internal/b2bua/media.go:338-351 | a tap that sometimes has no remote or whose writes sometimes fail misses those packets and no others: it gets, in order, what the far leg gets in exactly the turns that write to it |
| Fork.Relay.constructor | internal/b2bua/media.go:271-292 | the loop over the tap list gathers each tap's caller stream for one direction and its callee stream for the other, and activity is marked once |
| Fork.Relay.Run | internal/b2bua/media.go:289-318 | whatever order the turns of the four loops come in, the legs, every tap's two streams and the one shared mark end as the value-level run over one tap list says, and what each far leg and each tap stream was sent are the accepted datagrams of its own loop's turns, cut at 1500 bytes |
| Fork.LanesApart | internal/b2bua/media.go:289-318 | however the turns of the four loops interleave, each loop's far leg and its stream of every tap get what its own turns send: no tap's caller stream carries the callee's packets or the other way round, no tap carries RTCP, and a failure ends its own loop only |
| Fork.MarksCountAll | internal/b2bua/media.go:324-333 | the one mark counts the packets read by all four loops |
| Reaper.Sweep | internal/b2bua/reaper.go:29-54 | one sweep tears down exactly the established calls idle for longer than the timeout: in the order of the sweep their hooks' and taps' pairs are back, the registry has forgotten them, their sessions are closed and each leg got its BYE; every other call, pair and registry entry is as it was |
| Reaper.IntervalIs | internal/b2bua/reaper.go:12-20 | the sweep runs every half timeout, and every 30 seconds from a timeout of one minute on |
| Reaper.LastAtIs | internal/b2bua/media.go:215-226 | the activity that counts is the latest one not after now |
| Reaper.ReapedInTime | internal/b2bua/reaper.go:17-54 | a call silent since t is torn down no later than t + timeout + 30 s, and no later than t + timeout + timeout/2 |
| Reaper.NeverReaped | internal/b2bua/reaper.go:42-54 | a call whose pauses never exceed the timeout is not torn down; nor is one in setup, without media, or whose relay never started |

## Left out

- SetUp.BridgeCall: is one call's bridge that nobody interrupts; it is a run of the step machine (`EndingRuns.BridgeIsARun`), and what other goroutines do between its steps is covered there.
- MidCall.HandleRefer: starts with the call found under the REFER's dialog (`Registry.Calls.GetByDialog`); the NOTIFY's own transaction is only its status.
- Teardown.TeardownOnce: legs recorded after the commitment get no BYE from teardown, as in the code; the theorem is about the legs recorded at it.
- Negotiated.RemotesFollowAnswer: is about the stored remotes; that the lock-free relay may read an RTP remote and an RTCP remote of two different negotiations is not modelled.
- FlowToken.ParseMint: takes reading and writing of IP text as a parameter with stated laws instead of modelling it.
- Proxy.TravelSpends: with several Max-Forwards headers takes the first as the one that is read; that is the SIP library's choice and is not part of this repository.
- Reaper.ReapedInTime: a sweep is one instant, that is, it ends before the next tick and no call changes under it; a timeout below 2 ns has no ticker.
- Fork.Relay.Run: takes one turn of a loop (a read and its writes) as one step; whether a tap has a remote at that moment is part of the turn.
- RtpDump.RtpdumpRoundTrip: the source text is ASCII without a line feed, which the text of an address is.
- SIP transactions, dialogs, retransmission, timers and per-application deadlines: results of a leg are events.
- Sockets, ICE, DTLS and SRTP of the webphone's leg: bringing it up or binding a side succeeds or fails.
- TLS profiles, configuration parsing and defaults, metrics export, header filtering, trickle ICE fragments, log text and the active-leg count: they would only add easy members.
- The transport and Request-URI rewriting of a forwarded request: only its headers are modelled.
- Out-of-order arrival of two re-INVITEs' 200s at the endpoint: the last anchored answer is the one of the last commit under the lock.

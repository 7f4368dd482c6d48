# Smartcretary signalling, meeting room and transcriber — a Dafny model

Smartcretary is a video-meeting application. Browsers join a room through a WebSocket
relay written in Python. They then negotiate peer-to-peer WebRTC connections with each
other, using envelopes the relay forwards. The meeting page shows one main video, a
draggable picture-in-picture (PiP) tile, a chat and a People list. A separate command-line
tool transcribes speech phrase by phrase and asks an Ollama server for a summary.

This project models the logic of these parts in Dafny and proves what each one promises:

- **WebRTC hook** (`useWebRTC.ts`).
  - `Negotiation` holds the per-peer offer/answer rules as functions: politeness, offer
    collision and rollback, the candidate and answer buffers, `onnegotiationneeded`,
    presence and toggles.
  - `WebRTC` holds the same rules as the hook runs them. A `PeerConnection` class and an
    `Engine` class update the flag maps, buffers, outbox and participant list in place.
    Each method is proved to perform the matching `Negotiation` step.
  - `Registry` holds the participant-list updaters.
  - `Media` holds local tracks, the media-error text and the screen-share sender swap.
- **Client socket** (`useSocket.ts`). `Socket.Client` models the connected/error state
  machine, inbound routing and send-only-when-open.
- **Relay** (`manager.py`, `routes.py`, and their copy in `main.py`).
  - `Relay` states the hub (sockets, rooms, user→room map, outbox, scheduled notices) and
    every handler as functions over it, with the routing, broadcast and consistency lemmas.
  - `RelayServer.Server` is the dict-mutating `ConnectionManager` plus endpoint. Each
    method is proved to perform the matching `Relay` function.
- **Meeting page** (`meeting-room.tsx`, `MeetingSidebar.tsx`).
  - `MeetingRoom` covers the host choice, selection reconciliation, main/PiP indices,
    the drag clamp, chat routing and message sending.
  - `Sidebar` covers the unread counters.
- **Transcriber** (`realtime_transcribe.py`). `Transcribe` covers the phrase-segmentation
  loop, the transcript and the summary guard.

Messages are one record type, `Messages.Message`, whose optional JSON properties are
`Option`s. Each run of a signal handler is one atomic step, from its start to its end, with
every `await` inside it. The one exception is `onnegotiationneeded`, which is split at its
first `await`. A `Browser` record in the environment supplies the outcome of each `await`
and the signalling state that follows it.

Behaviour of the code worth noting, each item proved:

- `createPeerConnection` always builds a new connection (`WebRTC.Engine.CreatePeerConnection`).
- `onnegotiationneeded` has no in-flight guard (`Negotiation.NegotiationUnguarded`).
- `participantLeft` and `cleanup` keep the candidate and answer buffers
  (`Negotiation.LeftSpec`, `WebRTC.Engine.Cleanup`).
- Screen sharing swaps only the first video sender, although the comment at useWebRTC.ts:62
  says "all peer connections" (see Findings).
- `get_room` answers an unknown room with status 200 (see Findings).

## Model

| member | source | states |
|---|---|---|
| Common.StrLessIrreflexive | frontend/app/hooks/useWebRTC.ts:127-130 | No name is `<` itself. |
| Common.StrLessAsymmetric | frontend/app/hooks/useWebRTC.ts:127-130 | `a < b` rules out `b < a`. |
| Common.StrLessTrichotomy | frontend/app/components/meeting-room.tsx:348-349 | Any two names are equal or ordered one way. |
| Common.StrLessTransitive | frontend/app/components/meeting-room.tsx:348-349 | The string order is transitive, so a sorted list has a least element. |
| Common.TrimStart | frontend/app/components/meeting-room.tsx:157-158 | The result is a suffix of the input, starts with a non-space, and only spaces were dropped. |
| Common.Trim | frontend/app/components/meeting-room.tsx:157 | `trim()`/`strip()`; what it keeps and drops is stated by `TrimStart`, `TrimEnd`, `TrimShape`, `TrimAllSpace` and `TrimIdempotent`. |
| Common.TrimEnd | frontend/app/components/meeting-room.tsx:157-158 | The result is a prefix of the input, ends with a non-space, and only spaces were dropped. |
| Common.TrimShape | smartcretary/realtime_transcribe.py:136 | The trimmed text is a contiguous slice of the input and neither starts nor ends with whitespace. |
| Common.TrimAllSpace | frontend/app/components/meeting-room.tsx:157 | The trimmed text is empty iff the input is all whitespace. |
| Common.TrimIdempotent | smartcretary/realtime_transcribe.py:136 | Trimming twice is trimming once. |
| Common.JoinSpacesLength | smartcretary/realtime_transcribe.py:152 | `" ".join` of n phrases adds exactly n−1 separators. |
| Common.JoinSpaces | smartcretary/realtime_transcribe.py:152 | `" ".join`; its length is stated by `JoinSpacesLength`, and `Transcribe.JoinedHoldsPhrase` places each phrase in it. |
| Registry.Ids | frontend/app/hooks/useWebRTC.ts:286 | The id list lines up with the participant list. |
| Registry.UpdateWhereAt | frontend/app/hooks/useWebRTC.ts:290-292 | The `map` updater rewrites exactly the entries with the id, keeping length, ids and order. |
| Registry.UpdateWhere | frontend/app/hooks/useWebRTC.ts:290-292 | The `prev.map` updater; `UpdateWhereAt` and `UpdateAbsentAppend` state which entries it rewrites. |
| Registry.WithoutSpec | frontend/app/hooks/useWebRTC.ts:460 | The `filter` keeps exactly the entries with another id, and changes nothing when the id is absent. |
| Registry.Without | frontend/app/hooks/useWebRTC.ts:460 | The `filter` of participantLeft; stated by `WithoutSpec` and `WithoutKeepsUnique`. |
| Registry.WithoutKeepsUnique | frontend/app/hooks/useWebRTC.ts:460 | Removing a participant keeps ids unique. |
| Registry.AddPlaceholderSpec | frontend/app/hooks/useWebRTC.ts:443-448 | participantJoined adds one placeholder (unmuted, video on, no stream) only when the id is absent; ids stay unique. |
| Registry.AddPlaceholder | frontend/app/hooks/useWebRTC.ts:443-448 | participantJoined's update; stated by `AddPlaceholderSpec`. |
| Registry.OnTrackSpec | frontend/app/hooks/useWebRTC.ts:284-303 | ontrack appends an entry with the stream only when absent; otherwise it changes only that entry's stream. |
| Registry.OnTrack | frontend/app/hooks/useWebRTC.ts:284-303 | ontrack's update; stated by `OnTrackSpec` and, with a join, by `JoinAndTrackCommute`. |
| Registry.TogglesSpec | frontend/app/hooks/useWebRTC.ts:466-473 | An incoming toggle changes only the matching entry's flag, and keeps it when the envelope has none. |
| Registry.SetMuted | frontend/app/hooks/useWebRTC.ts:466-469 | toggleMute received, `signal.isMuted ?? p.isMuted`; stated by `TogglesSpec`. |
| Registry.SetVideoOn | frontend/app/hooks/useWebRTC.ts:470-473 | toggleVideo received, `signal.isVideoOn ?? p.isVideoOn`; stated by `TogglesSpec`. |
| Registry.JoinAndTrackCommute | frontend/app/hooks/useWebRTC.ts:284-303 | Presence and inbound media for a new peer give the same list in either order. |
| Registry.UpdateAbsentAppend | frontend/app/hooks/useWebRTC.ts:290-292 | Updating where only the appended entry matches changes only that entry. |
| Media.TrackIds | frontend/app/hooks/useWebRTC.ts:181-183 | The id list lines up with the tracks. |
| Media.FirstOfKind | frontend/app/hooks/useWebRTC.ts:226 | `getAudioTracks()[0]` is the first track of that kind, or none exists. |
| Media.FlipFirstSpec | frontend/app/hooks/useWebRTC.ts:224-244 | A toggle flips exactly the first track of the kind, keeps ids and kinds, and undoes itself when repeated. |
| Media.FlipFirst | frontend/app/hooks/useWebRTC.ts:226-228 | The enabled flip of `toggleMute`/`toggleVideo`; stated by `FlipFirstSpec`. |
| Media.FirstOfKindSameKinds | frontend/app/hooks/useWebRTC.ts:226 | Streams with the same kinds have the same first track of a kind. |
| Media.AddMissingSpec | frontend/app/hooks/useWebRTC.ts:180-188 | After `initializeMedia` a connection keeps its senders first, carries every local track, gains nothing else, and never duplicates a track. |
| Media.AddMissing | frontend/app/hooks/useWebRTC.ts:181-187 | The `addTrack` loop of `initializeMedia`; stated by `AddMissingSpec`. |
| Media.MediaErrorMessage | frontend/app/hooks/useWebRTC.ts:191-216 | The stored error starts with the fixed prefix, followed by the class's reason text. It is followed by the HTTPS note exactly when the page is not a secure context. |
| Media.IsSecureContext | frontend/app/hooks/useWebRTC.ts:150-152 | The secure-context test that decides the HTTPS note; `WebRTC.Engine.InitializeMedia` passes it to `MediaErrorMessage`. |
| Media.MediaErrorMessageIdentifiesClass | frontend/app/hooks/useWebRTC.ts:191-216 | Two failures give the same stored error only when they are of the same class, so the message always tells the class apart. |
| Media.ReasonInjective | frontend/app/hooks/useWebRTC.ts:191-207 | Different failure classes give different reason texts. |
| Media.Reason | frontend/app/hooks/useWebRTC.ts:191-207 | The reason text of each failure class; `ReasonInjective`, `FixedReasonsDiffer` and `FixedReasonNotError` state that the texts tell the classes apart. |
| Media.FixedReasonsDiffer | frontend/app/hooks/useWebRTC.ts:194-201 | The four fixed reasons have pairwise different lengths. |
| Media.FixedReasonNotError | frontend/app/hooks/useWebRTC.ts:194-203 | Every fixed reason is non-empty and does not start with `E`, so it is never mistaken for a platform `Error` text. |
| Media.ClassifySpec | frontend/app/hooks/useWebRTC.ts:193-207 | A throw that is not an `Error` is exactly the generic class; the other-error class arises only from an `Error` whose name is none of the four recognised ones, and keeps its message. |
| Media.Classify | frontend/app/hooks/useWebRTC.ts:193-205 | The `if`/`else if` chain over `error.name`; stated by `ClassifySpec`. |
| Media.FirstVideoSender | frontend/app/hooks/useWebRTC.ts:65 | `flatMap(getSenders).find(video)`: the sender found sends video and no earlier sender in flatMap order does; none is found iff no sender of any connection sends video. |
| Media.FirstVideoIn | frontend/app/hooks/useWebRTC.ts:65 | The first video sender of one connection, or none sends video. |
| Media.FirstVideoSenderLeavesOthersOnCamera | frontend/app/hooks/useWebRTC.ts:63-68 | With two connections sending the camera, a screen share as written leaves the second connection on the camera. |
| Media.ReplaceFirstVideoSender | frontend/app/hooks/useWebRTC.ts:65-68 | The swap as written; its effect is stated by `ReplaceFirstVideoSenderSpec`. |
| Media.ReplaceFirstVideoSenderSpec | frontend/app/hooks/useWebRTC.ts:65-68 | The swap as written keeps every connection's number of senders and changes exactly the sender `FirstVideoSender` finds: it then carries the screen track, and with no video sender nothing changes. |
| Media.ReplaceInSpec | frontend/app/hooks/useWebRTC.ts:62 | Per connection, every video sender gets the new track and every other sender is kept. |
| Media.ReplaceEveryVideoSenderSpec | frontend/app/hooks/useWebRTC.ts:62-68 | The corrected swap: every video sender of every connection gets the new track, nothing else changes. |
| Media.ReplaceEveryVideoSender | frontend/app/hooks/useWebRTC.ts:62 | The corrected swap; stated by `ReplaceInSpec` and `ReplaceEveryVideoSenderSpec`. |
| Negotiation.PolitenessSpec | frontend/app/hooks/useWebRTC.ts:127-130 | Of two distinct names exactly one end is polite; equal names are both impolite. |
| Negotiation.IsPoliteWith | frontend/app/hooks/useWebRTC.ts:127-130 | `isPoliteWith`; `PolitenessSpec` states that exactly one of two distinct names is polite. |
| Negotiation.AddCalls | frontend/app/hooks/useWebRTC.ts:381-383 | One `addIceCandidate` per pending candidate, in order. |
| Negotiation.SettleSpec | frontend/app/hooks/useWebRTC.ts:369-374 | The wait ends in have-remote-offer iff the state already was, or one of the ten looks saw it. |
| Negotiation.Settle | frontend/app/hooks/useWebRTC.ts:369-373 | The state after the bounded wait for have-remote-offer; stated by `SettleSpec`. |
| Negotiation.OfferCollisionSpec | frontend/app/hooks/useWebRTC.ts:351-367 | On a collision the impolite end only sets ignoreOffer; the polite end rolls back before applying the remote offer. |
| Negotiation.OfferCollision | frontend/app/hooks/useWebRTC.ts:353-354 | The collision test; its consequences are stated by `OfferCollisionSpec`. |
| Negotiation.OfferStep | frontend/app/hooks/useWebRTC.ts:351-407 | The offer branch; stated by `OfferCollisionSpec`, `OfferCallsExtend`, `OfferFinishesSpec` and `OfferReachesAnswer`. |
| Negotiation.OfferCallsExtend | frontend/app/hooks/useWebRTC.ts:353-367 | Past the collision check, the calls start with the rollback (on a collision) and the remote offer. |
| Negotiation.OfferFinishesSpec | frontend/app/hooks/useWebRTC.ts:365-406 | Unless the impolite end ignores it, an offer ends with negotiating false and the list and making-offer flags untouched; it sends at most the created answer, and queues at most that answer at the back of the peer's queue. |
| Negotiation.OfferReachesAnswer | frontend/app/hooks/useWebRTC.ts:365-386 | An accepted offer reaches the answer step with only the flags and candidate buffer changed. |
| Negotiation.ApplyOffer | frontend/app/hooks/useWebRTC.ts:365-378 | Applying an accepted offer and waiting; stated by `OfferReachesAnswer`. |
| Negotiation.AnswerOfferSpec | frontend/app/hooks/useWebRTC.ts:385-406 | The answer tail clears negotiating and sends or queues at most the created answer. |
| Negotiation.AnswerOffer | frontend/app/hooks/useWebRTC.ts:385-406 | The answering tail; stated by `AnswerOfferSpec` and `OfferQueuesAnswer`. |
| Negotiation.OfferAcceptedDrains | frontend/app/hooks/useWebRTC.ts:379-384 | After an accepted offer every pending candidate is added once, in order, and the queue is empty; otherwise the buffers are kept. |
| Negotiation.DrainAndAnswerCalls | frontend/app/hooks/useWebRTC.ts:379-391 | Draining makes exactly the pending candidates' calls, then at most the answer. |
| Negotiation.DrainAndAnswer | frontend/app/hooks/useWebRTC.ts:379-406 | Draining then answering; stated by `DrainAndAnswerCalls` and `OfferAcceptedDrains`. |
| Negotiation.OfferQueuesAnswer | frontend/app/hooks/useWebRTC.ts:389-402 | The answer is queued at the back iff it was created, setting it failed and the state left have-remote-offer. |
| Negotiation.AnswerStepSpec | frontend/app/hooks/useWebRTC.ts:408-421 | An answer outside have-local-offer changes nothing; otherwise the remote answer and then the pending candidates are applied and the queue emptied. |
| Negotiation.AnswerStep | frontend/app/hooks/useWebRTC.ts:408-421 | The answer branch; stated by `AnswerStepSpec` and `CandidatesAppliedInOrder`. |
| Negotiation.CandidateArrivalsApplied | frontend/app/hooks/useWebRTC.ts:424-433 | When a candidate can be applied, arrivals are added at once in order and nothing is queued. |
| Negotiation.CandidateStep | frontend/app/hooks/useWebRTC.ts:422-440 | The candidate branch; stated for one or more arrivals by the `CandidateArrivals…` lemmas. |
| Negotiation.CandidateArrivals | frontend/app/hooks/useWebRTC.ts:422-440 | Successive candidate envelopes; stated by `CandidateArrivalsApplied`, `CandidateArrivalsQueued` and `CandidateArrivalsFirstQueued`. |
| Negotiation.CandidateArrivalsQueued | frontend/app/hooks/useWebRTC.ts:434-439 | Otherwise arrivals join the back of the existing queue, and no call is made. |
| Negotiation.CandidateArrivalsFirstQueued | frontend/app/hooks/useWebRTC.ts:434-439 | For a peer without a queue, the arrivals become its queue. |
| Negotiation.AddCallsAppend | frontend/app/hooks/useWebRTC.ts:381-383 | Adding two batches of candidates is adding their concatenation. |
| Negotiation.CandidatesAppliedInOrder | frontend/app/hooks/useWebRTC.ts:408-440 | Candidates queued before an answer are applied after the remote answer, in arrival order, and the queue is left empty. |
| Negotiation.StateChangeSpec | frontend/app/hooks/useWebRTC.ts:263-282 | A change into have-remote-offer with a non-empty queue sets and sends the oldest queued answer and removes it; any other change touches no bookkeeping. |
| Negotiation.StateChangeStep | frontend/app/hooks/useWebRTC.ts:263-282 | onsignalingstatechange; stated by `StateChangeSpec`. |
| Negotiation.Replays | frontend/app/hooks/useWebRTC.ts:263-282 | Successive changes into have-remote-offer; stated by `ReplaysSpec`, `ReplaysQueue` and `ReplaysCalls`. |
| Negotiation.LocalCalls | frontend/app/hooks/useWebRTC.ts:273 | One `setLocalDescription` per replayed answer, in order. |
| Negotiation.ReplaysSpec | frontend/app/hooks/useWebRTC.ts:263-282 | k changes into have-remote-offer apply the k oldest queued answers in order and leave the rest queued. |
| Negotiation.ReplaysQueue | frontend/app/hooks/useWebRTC.ts:266-280 | After k replays the queue holds exactly the rest. |
| Negotiation.ReplaysCalls | frontend/app/hooks/useWebRTC.ts:268-273 | k replays set exactly the k oldest answers, in order. |
| Negotiation.ReplayOne | frontend/app/hooks/useWebRTC.ts:266-280 | One replay takes exactly the front answer. |
| Negotiation.NegotiationFinishSpec | frontend/app/hooks/useWebRTC.ts:306-317 | makingOffer is false once the handler finishes, whatever the outcome, and at most one offer is sent. |
| Negotiation.NegotiationStart | frontend/app/hooks/useWebRTC.ts:308 | The synchronous start of onnegotiationneeded, which sets makingOffer; used by `NegotiationFinishSpec` and `NegotiationUnguarded`. |
| Negotiation.NegotiationFinish | frontend/app/hooks/useWebRTC.ts:309-316 | The rest of onnegotiationneeded; stated by `NegotiationFinishSpec` and `NegotiationUnguarded`. |
| Negotiation.NegotiationUnguarded | frontend/app/hooks/useWebRTC.ts:306-317 | Two overlapping runs send two offers, and the first finishing clears the flag while the second still runs. |
| Negotiation.JoinedSpec | frontend/app/hooks/useWebRTC.ts:441-458 | A join adds a placeholder, builds a fresh connection, and sends an offer only when polite, not negotiating and the offer was set. |
| Negotiation.JoinedStep | frontend/app/hooks/useWebRTC.ts:441-458 | participantJoined; stated by `JoinedSpec`, `JoinedOffers` and `JoinedKeepsUniqueIds`. |
| Negotiation.JoinedOffers | frontend/app/hooks/useWebRTC.ts:449-457 | The polite try, written out: the flag is set and cleared, and the offer is sent when created and set. |
| Negotiation.LeftSpec | frontend/app/hooks/useWebRTC.ts:459-465 | A leave removes the id from every flag map and the list and closes the connection, but keeps both buffers. |
| Negotiation.LeftStep | frontend/app/hooks/useWebRTC.ts:459-465 | participantLeft; stated by `LeftSpec`. |
| Negotiation.ToggleStep | frontend/app/hooks/useWebRTC.ts:466-474 | The toggle branches; stated by `Registry.TogglesSpec` and `PresenceKeepsUniqueIds`. |
| Negotiation.SameIdsUnique | frontend/app/hooks/useWebRTC.ts:466-473 | A list with the same ids as a unique list is unique. |
| Negotiation.NegotiationKeepsParticipants | frontend/app/hooks/useWebRTC.ts:351-440 | Offers, answers and candidates never change the participant list. |
| Negotiation.SignalKeepsUniqueIds | frontend/app/hooks/useWebRTC.ts:332-479 | No signal ever lists a participant id twice. |
| Negotiation.SignalStep | frontend/app/hooks/useWebRTC.ts:332-479 | `handleSignal` for another sender; stated by `SignalKeepsUniqueIds`. |
| Negotiation.NegotiationSignal | frontend/app/hooks/useWebRTC.ts:351-440 | The offer, answer and candidate branches; stated by `NegotiationKeepsParticipants`. |
| Negotiation.PresenceSignal | frontend/app/hooks/useWebRTC.ts:441-474 | The presence and toggle branches; stated by `PresenceKeepsUniqueIds`. |
| Negotiation.PresenceKeepsUniqueIds | frontend/app/hooks/useWebRTC.ts:441-474 | Presence and toggle signals keep ids unique. |
| Negotiation.JoinedKeepsUniqueIds | frontend/app/hooks/useWebRTC.ts:441-458 | A join keeps ids unique. |
| WebRTC.PeerConnection.constructor | frontend/app/hooks/useWebRTC.ts:248-324 | A new connection is stable, has no remote description, and carries every local track. |
| WebRTC.PeerConnection.Rollback | frontend/app/hooks/useWebRTC.ts:363 | The rollback as the `Rolled` step. |
| WebRTC.PeerConnection.SetRemoteDescription | frontend/app/hooks/useWebRTC.ts:367 | Applying the remote description as the `RemoteSet` step. |
| WebRTC.PeerConnection.SetLocalDescription | frontend/app/hooks/useWebRTC.ts:390 | Applying the local description as the `LocalSet` step. |
| WebRTC.PeerConnection.Observe | frontend/app/hooks/useWebRTC.ts:370 | Only the signalling state changes. |
| WebRTC.PeerConnection.AddIceCandidates | frontend/app/hooks/useWebRTC.ts:381-383 | The drain loop adds the candidates in order. |
| WebRTC.PeerConnection.WaitForRemoteOffer | frontend/app/hooks/useWebRTC.ts:369-373 | The bounded wait loop is the `Settled` step. |
| WebRTC.PeerConnection.Close | frontend/app/hooks/useWebRTC.ts:461 | `close()` moves the connection to closed. |
| WebRTC.PeerConnection.AddTracksIfMissing | frontend/app/hooks/useWebRTC.ts:181-187 | Adds each local track that no sender carries yet. |
| WebRTC.Engine.constructor | frontend/app/hooks/useWebRTC.ts:44-135 | The initial state: no stream, unmuted, video on, no peers, empty books. |
| WebRTC.Engine.CreatePeerConnection | frontend/app/hooks/useWebRTC.ts:246-330 | Always a fresh connection, filed under the id whether or not one existed. |
| WebRTC.Engine.HandleSignal | frontend/app/hooks/useWebRTC.ts:332-479 | Ignores the current user; otherwise each type performs its `Negotiation` step on the sender's (possibly new) connection. |
| WebRTC.Engine.SignalLeft | frontend/app/hooks/useWebRTC.ts:336-340 | A leave creates the missing connection, then closes and forgets it. |
| WebRTC.Engine.SignalJoined | frontend/app/hooks/useWebRTC.ts:336-340 | A join creates the missing connection, then replaces it with a fresh one. |
| WebRTC.Engine.SignalOther | frontend/app/hooks/useWebRTC.ts:336-347 | Every other type works on the sender's connection, create it first if missing. |
| WebRTC.Engine.HandleOnPeer | frontend/app/hooks/useWebRTC.ts:351-474 | The dispatch on the envelope type is `SignalStep`. |
| WebRTC.Engine.HandleNegotiation | frontend/app/hooks/useWebRTC.ts:351-440 | The offer, answer and candidate branches are `NegotiationSignal`. |
| WebRTC.Engine.HandleToggle | frontend/app/hooks/useWebRTC.ts:466-474 | The toggle branches are `ToggleStep`. |
| WebRTC.Engine.HandleOffer | frontend/app/hooks/useWebRTC.ts:351-407 | The offer branch is `OfferStep`. |
| WebRTC.Engine.ApplyOffer | frontend/app/hooks/useWebRTC.ts:365-378 | Applying the offer and waiting is `ApplyOffer`. |
| WebRTC.Engine.DrainAndAnswer | frontend/app/hooks/useWebRTC.ts:379-406 | Draining and answering is `DrainAndAnswer`. |
| WebRTC.Engine.AnswerOffer | frontend/app/hooks/useWebRTC.ts:385-406 | The answer tail is `AnswerOffer`. |
| WebRTC.Engine.HandleAnswer | frontend/app/hooks/useWebRTC.ts:408-421 | The answer branch is `AnswerStep`. |
| WebRTC.Engine.HandleCandidate | frontend/app/hooks/useWebRTC.ts:422-440 | The candidate branch is `CandidateStep`. |
| WebRTC.Engine.HandleJoined | frontend/app/hooks/useWebRTC.ts:441-458 | The join branch is `JoinedStep` on a fresh connection. |
| WebRTC.Engine.HandleLeft | frontend/app/hooks/useWebRTC.ts:459-465 | The leave branch is `LeftStep`; the id leaves `peers`. |
| WebRTC.Engine.OnSignalingStateChange | frontend/app/hooks/useWebRTC.ts:263-282 | The handler is `StateChangeStep`. |
| WebRTC.Engine.NegotiationNeededStart | frontend/app/hooks/useWebRTC.ts:308 | Sets makingOffer for the peer. |
| WebRTC.Engine.NegotiationNeededFinish | frontend/app/hooks/useWebRTC.ts:309-316 | The rest of the handler is `NegotiationFinish`. |
| WebRTC.Engine.OnTrack | frontend/app/hooks/useWebRTC.ts:284-303 | ontrack applies `Registry.OnTrack` to the list. |
| WebRTC.Engine.OnIceCandidate | frontend/app/hooks/useWebRTC.ts:250-254 | A gathered candidate sends one candidate envelope; the end of gathering sends nothing. |
| WebRTC.Engine.ToggleMute | frontend/app/hooks/useWebRTC.ts:224-233 | Flips the first audio track, sets isMuted to its old enabled flag and sends one toggleMute; nothing happens without a stream or an audio track. |
| WebRTC.Engine.ToggleVideo | frontend/app/hooks/useWebRTC.ts:235-244 | Flips the first video track, sets isVideoOn to its new flag and sends one toggleVideo; nothing happens without a stream or a video track. |
| WebRTC.Engine.InitializeMedia | frontend/app/hooks/useWebRTC.ts:137-222 | On failure, stores the classified message and rethrows, leaving the stream and peers alone; on success, stores the stream and adds missing tracks to every peer. |
| WebRTC.Engine.AddTracksToPeers | frontend/app/hooks/useWebRTC.ts:180-188 | Every connection gains exactly the local tracks it lacked. |
| WebRTC.Engine.ClosePeers | frontend/app/hooks/useWebRTC.ts:493-496 | Every connection is closed. |
| WebRTC.Engine.Cleanup | frontend/app/hooks/useWebRTC.ts:483-504 | Closes and forgets every peer, clears the list and negotiating, resets the toggles, and keeps the other flags and both buffers. |
| Socket.CloseError | frontend/app/hooks/useSocket.ts:66-68 | The close error is the prefix plus the reason, or `Unknown error` for an empty reason. |
| Socket.ChatEnvelope | frontend/app/hooks/useSocket.ts:90-98 | The chat envelope carries room, user, content, timestamp and `current-user`, and `isTranscription: true` iff the flag is set. |
| Socket.Client.constructor | frontend/app/hooks/useSocket.ts:37-46 | A new socket is connecting, not connected, with no error. |
| Socket.Client.OnOpen | frontend/app/hooks/useSocket.ts:48-52 | `onopen` sets isConnected and clears the error. |
| Socket.Client.OnMessage | frontend/app/hooks/useSocket.ts:54-61 | A chat frame goes only to `onMessage`, any other only to `onSignal`. |
| Socket.Route | frontend/app/hooks/useSocket.ts:56-60 | Where `onmessage` sends a frame; `Client.OnMessage` states that chat goes only to `onMessage` and anything else only to `onSignal`. |
| Socket.Client.OnClose | frontend/app/hooks/useSocket.ts:63-69 | `onclose` clears isConnected, and sets the error iff the code is not 1000 (normal closure, section 7.4.1 of RFC 6455). |
| Socket.Client.OnError | frontend/app/hooks/useSocket.ts:71-80 | `onerror` sets the fixed error and leaves isConnected alone. |
| Socket.Client.SendMessage | frontend/app/hooks/useSocket.ts:87-105 | Exactly one chat frame iff the socket is open. |
| Socket.Client.SendJsonMessage | frontend/app/hooks/useSocket.ts:107-116 | The object unchanged iff the socket is open, else nothing. |
| Socket.CloseErrorCollision | frontend/app/hooks/useSocket.ts:66-68 | Two reasons give the same error iff they are equal, or one is empty and the other is the fallback text. |
| Socket.ErrorSourcesDistinct | frontend/app/hooks/useSocket.ts:63-80 | A close error never equals the `onerror` text. |
| Relay.MemberIds | backend/smartcretary/signaling/manager.py:63 | The id list lines up with the room's members. |
| Relay.Remove | backend/smartcretary/signaling/manager.py:33 | `del participants[u]` keeps exactly the members with another id. |
| Relay.JoinNotice | backend/smartcretary/signaling/manager.py:67-73 | A join notice is `participantJoined` with the newcomer's id and name and the room. |
| Relay.LeaveNotice | backend/smartcretary/signaling/manager.py:76-81 | A leave notice is `participantLeft` with the id and room and no name. |
| Relay.Forwarded | backend/smartcretary/signaling/routes.py:71-84 | Forwarding overwrites sender id, name and room and keeps every other property. |
| Relay.ChatOut | backend/smartcretary/signaling/routes.py:60-66 | A relayed chat gets a fresh id and the server's user id and name, and keeps content and timestamp. |
| Relay.Names | backend/smartcretary/signaling/routes.py:106 | The name list lines up with the members. |
| Relay.Summary | backend/smartcretary/signaling/routes.py:103-107 | A room summary's count equals the number of names listed. |
| Relay.GetRoom | backend/smartcretary/signaling/routes.py:110-120 | The corrected `get_room`: status 404 with the error object iff the room is unknown, else status 200 with the room's id and members. |
| Relay.GetRoomAsWritten | backend/smartcretary/signaling/routes.py:110-120 | `get_room` as written; compared with the corrected reply by `GetRoomUnknownAnswersOk`. |
| Relay.GetRoomUnknownAnswersOk | backend/smartcretary/signaling/routes.py:112-113 | For a known room the as-written reply equals the corrected one. For an unknown room it has status 200 with the error and the 404 in the body, so it differs. |
| Relay.DistinctCons | backend/smartcretary/signaling/manager.py:63 | A list with a head is distinct iff the head is new and the tail distinct. |
| Relay.RemoveIdsIn | backend/smartcretary/signaling/manager.py:33 | Removal drops exactly the id. |
| Relay.RemoveKeepsDistinct | backend/smartcretary/signaling/manager.py:33 | Removal keeps ids distinct. |
| Relay.RemoveIds | backend/smartcretary/signaling/manager.py:33 | Both of the above together. |
| Relay.DisconnectSpec | backend/smartcretary/signaling/manager.py:25-36 | `disconnect` removes the user from all three maps and schedules a leave notice iff it was a listed participant. |
| Relay.Connect | backend/smartcretary/signaling/manager.py:16-23 | `connect` after `accept`: the socket, CONNECTED, is registered. `ServedConsistent` and `SessionSpec` start from it. |
| Relay.Disconnect | backend/smartcretary/signaling/manager.py:25-36 | `disconnect`; stated by `DisconnectSpec`, `DisconnectIdempotent` and `DisconnectConsistent`. |
| Relay.DisconnectIdempotent | backend/smartcretary/main.py:68-79 | A second `disconnect` changes nothing and schedules nothing. |
| Relay.DisconnectConsistent | backend/smartcretary/signaling/manager.py:25-36 | `disconnect` keeps the hub consistent and lists the user nowhere. |
| Relay.ListedDisconnectConsistent | backend/smartcretary/signaling/manager.py:28-33 | The case where the user is listed: only its room changes. |
| Relay.SendPersonalSpec | backend/smartcretary/signaling/manager.py:38-57 | A send writes one frame iff the socket is registered and CONNECTED, drops a registered socket that is not, and does nothing for unknown ids. |
| Relay.SendPersonal | backend/smartcretary/signaling/manager.py:38-57 | `send_personal_message`; stated by `SendPersonalSpec`. |
| Relay.SendsSpec | backend/smartcretary/signaling/manager.py:59-65 | The frames of a broadcast go to exactly the listed, not excluded, CONNECTED ids. |
| Relay.Sends | backend/smartcretary/signaling/manager.py:59-65 | An independent list of the frames a broadcast writes; `SendAllSpec` and `BroadcastSpec` tie the loop to it. |
| Relay.SendsAgree | backend/smartcretary/signaling/manager.py:59-65 | What a broadcast writes depends only on the flags of the listed ids. |
| Relay.SendStep | backend/smartcretary/signaling/manager.py:64-65 | One turn of the broadcast loop. |
| Relay.SendAllActive | backend/smartcretary/signaling/manager.py:59-65 | A broadcast disconnects exactly the listed, not excluded ids that are not CONNECTED. |
| Relay.StepKeepsSends | backend/smartcretary/signaling/manager.py:63-65 | One turn does not change what later turns write. |
| Relay.DistinctNoRepeats | backend/smartcretary/signaling/manager.py:63 | Distinct ids, stated position by position. |
| Relay.SendAllSpec | backend/smartcretary/signaling/manager.py:63-65 | The loop writes exactly the frames `Sends` lists. |
| Relay.SendAll | backend/smartcretary/signaling/manager.py:63-65 | The broadcast loop; stated by `SendAllSpec` and `SendAllActive`. |
| Relay.BroadcastSpec | backend/smartcretary/signaling/manager.py:59-65 | Nothing for an unknown room; otherwise one frame to each CONNECTED member but the excluded one. |
| Relay.Broadcast | backend/smartcretary/signaling/manager.py:59-65 | `broadcast_to_room`; stated by `BroadcastSpec` and `BroadcastConsistent`. |
| Relay.SendPersonalConsistent | backend/smartcretary/signaling/manager.py:38-57 | A send keeps the hub consistent. |
| Relay.SendAllConsistent | backend/smartcretary/signaling/manager.py:63-65 | The broadcast loop keeps it. |
| Relay.BroadcastConsistent | backend/smartcretary/signaling/manager.py:59-65 | A broadcast keeps it. |
| Relay.DisconnectKeepsSeated | backend/smartcretary/signaling/manager.py:25-36 | Disconnecting someone else leaves a seated user seated. |
| Relay.SendPersonalKeepsSeated | backend/smartcretary/signaling/manager.py:38-57 | Any send leaves a seated user seated. |
| Relay.SendAllKeepsSeated | backend/smartcretary/signaling/manager.py:63-65 | The broadcast loop leaves a seated user seated. |
| Relay.BroadcastKeepsSeated | backend/smartcretary/signaling/manager.py:59-65 | A broadcast leaves a seated user seated. |
| Relay.ToUser | backend/smartcretary/signaling/routes.py:50-51 | One frame per message to the user, in order. |
| Relay.SendEachSpec | backend/smartcretary/signaling/routes.py:50-51 | Sends to a CONNECTED user only append those frames. |
| Relay.SendEach | backend/smartcretary/signaling/routes.py:50-51 | The sends to the newcomer; stated by `SendEachSpec`. |
| Relay.JoinNotices | backend/smartcretary/signaling/routes.py:42-49 | One join notice per member, in order. |
| Relay.IntroductionsSpec | backend/smartcretary/signaling/routes.py:41-49 | `current_participants` is one join notice per member other than the newcomer. |
| Relay.Introductions | backend/smartcretary/signaling/routes.py:41-49 | `current_participants`; stated by `IntroductionsSpec`. |
| Relay.MemberIdsAppend | backend/smartcretary/signaling/routes.py:37 | Adding a member appends its id. |
| Relay.EnterSpec | backend/smartcretary/signaling/routes.py:33-38 | Entering creates the room if absent, lists the user, maps it to the room, and keeps the hub consistent. |
| Relay.Enter | backend/smartcretary/signaling/routes.py:33-38 | Joining the room's tables; stated by `EnterSpec`. |
| Relay.SendsSkipExcluded | backend/smartcretary/signaling/manager.py:64 | The excluded newcomer gets no frame of its own announcement. |
| Relay.AdmitSpec | backend/smartcretary/signaling/routes.py:33-51 | Each existing member gets one join notice about the newcomer; the newcomer then gets one per other member. |
| Relay.Admit | backend/smartcretary/signaling/routes.py:33-51 | The endpoint after `connect`; stated by `AdmitSpec`. |
| Relay.ReceiveRoutes | backend/smartcretary/signaling/routes.py:57-87 | Chat goes to the whole room; signals go only to a truthy target and are dropped without one; toggles go to all but the sender; `join` and unknown types do nothing. |
| Relay.EchoRules | backend/smartcretary/main.py:181-210 | A seated sender gets its own chat back and never its own toggle. |
| Relay.ReceiveConsistent | backend/smartcretary/signaling/routes.py:57-87 | One frame keeps the hub consistent. |
| Relay.Receive | backend/smartcretary/signaling/routes.py:57-87 | One turn of the receive loop; stated by `ReceiveRoutes`, `EchoRules` and `ReceiveConsistent`. |
| Relay.ServeConsistent | backend/smartcretary/signaling/routes.py:52-92 | The receive loop keeps it. |
| Relay.Serve | backend/smartcretary/signaling/routes.py:52-92 | The receive loop; stated by `ServeConsistent`. |
| Relay.SessionSpec | backend/smartcretary/signaling/routes.py:27-97 | However the session ends, `finally` leaves the user in no map and no room; a failed accept changes nothing. |
| Relay.Session | backend/smartcretary/signaling/routes.py:27-97 | A whole endpoint run; stated by `SessionSpec`. |
| Relay.Consistent | backend/smartcretary/signaling/routes.py:36-38 | The hub invariant: unique ids per room, and every member's `user_rooms` entry names its room. `DisconnectConsistent`, `SendPersonalConsistent`, `BroadcastConsistent`, `EnterSpec`, `ReceiveConsistent`, `ServeConsistent` and `ServedConsistent` preserve it. |
| Relay.ServedConsistent | backend/smartcretary/main.py:138-218 | Serving an admitted user keeps the hub consistent. |
| Relay.RunNoticeSpec | backend/smartcretary/signaling/manager.py:35 | A scheduled leave notice, when run, goes to every CONNECTED member but the leaver, with no name. |
| Relay.RunNotice | backend/smartcretary/signaling/manager.py:35 | Running the first scheduled leave notice; stated by `RunNoticeSpec`. |
| RelayServer.Server.constructor | backend/smartcretary/signaling/manager.py:11-14 | An empty relay. |
| RelayServer.Server.SetClientState | backend/smartcretary/signaling/manager.py:42 | A registered socket's state changes on its own. |
| RelayServer.Server.Connect | backend/smartcretary/signaling/manager.py:16-23 | The socket is registered iff `accept` succeeded; otherwise nothing changes. |
| RelayServer.Server.Disconnect | backend/smartcretary/signaling/manager.py:25-36 | The method is `Relay.Disconnect`. |
| RelayServer.Server.SendPersonalMessage | backend/smartcretary/signaling/manager.py:38-57 | The method is `Relay.SendPersonal`. |
| RelayServer.Server.BroadcastToRoom | backend/smartcretary/signaling/manager.py:59-65 | The loop is `Relay.Broadcast`. |
| RelayServer.Server.NotifyParticipantJoined | backend/smartcretary/signaling/manager.py:67-74 | Broadcasts the join notice, excluding the newcomer. |
| RelayServer.Server.NotifyParticipantLeft | backend/smartcretary/signaling/manager.py:76-82 | Broadcasts the leave notice, excluding the leaver. |
| RelayServer.Server.RunScheduledNotice | backend/smartcretary/signaling/manager.py:35 | Running the oldest scheduled task is `Relay.RunNotice`. |
| RelayServer.Server.Join | backend/smartcretary/signaling/routes.py:33-51 | The endpoint's join is `Relay.Admit`. |
| RelayServer.Server.CurrentParticipants | backend/smartcretary/signaling/routes.py:41-49 | The loop builds `Relay.Introductions`. |
| RelayServer.Server.SendEachTo | backend/smartcretary/signaling/routes.py:50-51 | The loop is `Relay.SendEach`. |
| RelayServer.Server.Handle | backend/smartcretary/signaling/routes.py:57-87 | One frame is `Relay.Receive`. |
| RelayServer.Server.ReceiveLoop | backend/smartcretary/signaling/routes.py:52-92 | The loop is `Relay.Serve`. |
| RelayServer.Server.Endpoint | backend/smartcretary/signaling/routes.py:27-97 | The whole endpoint is `Relay.Session`. |
| RelayServer.Server.GetRooms | backend/smartcretary/signaling/routes.py:99-108 | One summary per room, each with its own members. |
| MeetingRoom.Names | frontend/app/components/meeting-room.tsx:348 | The name list lines up with the participants. |
| MeetingRoom.MinNameSpec | frontend/app/components/meeting-room.tsx:349 | The first sorted name is one of the names and no name is smaller. |
| MeetingRoom.MinName | frontend/app/components/meeting-room.tsx:349 | The first sorted name; stated by `MinNameSpec`. |
| MeetingRoom.HostName | frontend/app/components/meeting-room.tsx:348-349 | The host's name; stated by `IsHostIff` and `HostUnique`. |
| MeetingRoom.IsHostIff | frontend/app/components/meeting-room.tsx:348-350 | The user is host iff no participant's name sorts before its own. |
| MeetingRoom.IsHost | frontend/app/components/meeting-room.tsx:350 | `isHost`; stated by `IsHostIff` and `HostUnique`. |
| MeetingRoom.HostUnique | frontend/app/components/meeting-room.tsx:347-350 | Two users with different names who list each other are not both host. |
| MeetingRoom.Reconcile | frontend/app/components/meeting-room.tsx:198-206 | Nothing selected → the first participant; a listed selection is kept; a gone one → the first participant's id, or null for an empty list. |
| MeetingRoom.ReconcileSettles | frontend/app/components/meeting-room.tsx:198-206 | With non-empty ids a reconciled selection is a listed participant, and a second run keeps it. |
| MeetingRoom.RemoteTiles | frontend/app/components/meeting-room.tsx:296 | One remote tile per participant, in order. |
| MeetingRoom.AllTiles | frontend/app/components/meeting-room.tsx:294-297 | The local tile is index 0, then one per participant. |
| MeetingRoom.FindIndex | frontend/app/components/meeting-room.tsx:298-299 | `findIndex` is the first match, or −1 iff none matches. |
| MeetingRoom.IndicesSwap | frontend/app/components/meeting-room.tsx:298-299 | Flipping `isMainVideoLocal` swaps main and PiP; with the local video main, main is 0. |
| MeetingRoom.MainIndex | frontend/app/components/meeting-room.tsx:298 | `mainIdx` as written; stated by `IndicesSwap` and `MainTileMissingAfterLeave`. |
| MeetingRoom.PipIndex | frontend/app/components/meeting-room.tsx:299 | `pipIdx`; stated by `IndicesSwap`. |
| MeetingRoom.MainTileMissingAfterLeave | frontend/app/components/meeting-room.tsx:298-300 | As written, after the selected participant leaves with a remote main video, the main index is −1 and there is no main tile. |
| MeetingRoom.MainTileAsWritten | frontend/app/components/meeting-room.tsx:300 | `allParticipants[mainIdx]` as written; `MainTileMissingAfterLeave` shows it can be missing. |
| MeetingRoom.MainIndexOrLocal | frontend/app/components/meeting-room.tsx:298-300 | The corrected main index is always valid, and is the local tile when nothing matches. |
| MeetingRoom.MainTileSpec | frontend/app/components/meeting-room.tsx:294-301 | The corrected main tile is the local one unless a listed participant is selected for the main video. |
| MeetingRoom.MainTile | frontend/app/components/meeting-room.tsx:300 | The corrected main tile; stated by `MainTileSpec`. |
| MeetingRoom.Clamp | frontend/app/components/meeting-room.tsx:238-239 | The clamp lies in [0, max(0, limit)] and is the value itself inside that range. |
| MeetingRoom.DragTo | frontend/app/components/meeting-room.tsx:235-239 | The PiP stays within 0 ≤ x ≤ max(0, width−200) and 0 ≤ y ≤ max(0, height−150). |
| MeetingRoom.DragFollowsCursor | frontend/app/components/meeting-room.tsx:235-239 | On screen, the PiP moves by exactly the cursor's offset. |
| MeetingRoom.Page.constructor | frontend/app/components/meeting-room.tsx:46-57 | The initial page state: nothing selected, local main video, PiP at (20, 20). |
| MeetingRoom.Page.ReconcileSelection | frontend/app/components/meeting-room.tsx:198-206 | The effect sets the selection to `Reconcile` and changes nothing else. |
| MeetingRoom.Page.SwapVideos | frontend/app/components/meeting-room.tsx:219-223 | `isMainVideoLocal` flips only with a selection and a non-empty list. |
| MeetingRoom.Page.MouseDown | frontend/app/components/meeting-room.tsx:226-230 | Starts dragging and records the cursor and the PiP position. |
| MeetingRoom.Page.MouseMove | frontend/app/components/meeting-room.tsx:232-242 | Moves the PiP by `DragTo` only while dragging. |
| MeetingRoom.Page.MouseUp | frontend/app/components/meeting-room.tsx:244-246 | Stops dragging. |
| MeetingRoom.Page.HandleChatMessage | frontend/app/components/meeting-room.tsx:101-107 | A transcription appends `user: content` to the notes; anything else appends to the messages; never both. |
| MeetingRoom.Page.SendMessage | frontend/app/components/meeting-room.tsx:156-161 | Sends the trimmed text and clears the input only when it is non-empty and the socket is connected. |
| Sidebar.Observe | frontend/app/components/MeetingSidebar.tsx:74-81 | On the watched tab the count is 0; elsewhere it grows by the increase, not on a shrink; the ref records the length. |
| Sidebar.ObserveAllSpec | frontend/app/components/MeetingSidebar.tsx:74-81 | On another tab, successive runs add up every increase and record the last length. |
| Sidebar.RisesOfGrowth | frontend/app/components/MeetingSidebar.tsx:77-79 | For a growing list, the count grows by exactly the number of new items. |
| Sidebar.VisitClears | frontend/app/components/MeetingSidebar.tsx:75-76 | On the watched tab the count stays 0. |
| Sidebar.PeopleCount | frontend/app/components/MeetingSidebar.tsx:125 | The People count shown on the tab; its meaning is stated by `Sidebar.PeopleCountIsTiles`. |
| Sidebar.PeopleCountIsTiles | frontend/app/components/MeetingSidebar.tsx:125 | `participants.length + 1` is the number of tiles the page shows. |
| Sidebar.Panel.constructor | frontend/app/components/MeetingSidebar.tsx:68-71 | No unread items; the refs hold the first lengths. |
| Sidebar.Panel.SetActiveTab | frontend/app/components/MeetingSidebar.tsx:114 | Changing tab leaves the counters for the effects. |
| Sidebar.Panel.MessagesEffect | frontend/app/components/MeetingSidebar.tsx:74-81 | The message effect is `Observe` for the chat tab. |
| Sidebar.Panel.ParticipantsEffect | frontend/app/components/MeetingSidebar.tsx:84-91 | The participant effect is `Observe` for the participants tab. |
| Transcribe.PauseIsOneBlock | smartcretary/realtime_transcribe.py:22-30 | The pause is ⌊2·16000/24678⌋ = 1 block, although a block (24678 samples) is shorter than the two seconds (32000 samples) the pause is meant to last. |
| Transcribe.StepSpec | smartcretary/realtime_transcribe.py:94-104 | Speech joins the buffer and resets the counter; silence with nothing buffered changes nothing; one silent block after speech ends the phrase. |
| Transcribe.Step | smartcretary/realtime_transcribe.py:92-104 | One block of `_process_audio`; stated by `StepSpec`. |
| Transcribe.ScanConserves | smartcretary/realtime_transcribe.py:80-104 | No spoken block is lost or duplicated, whatever the pause length. |
| Transcribe.Scan | smartcretary/realtime_transcribe.py:80-104 | The loop up to the sentinel; stated by `ScanConserves`, `ScanKeeps` and `ScanIsRuns`. |
| Transcribe.ScanKeeps | smartcretary/realtime_transcribe.py:95-100 | Only non-empty buffers are transcribed, and earlier phrases stay. |
| Transcribe.ScanIsRuns | smartcretary/realtime_transcribe.py:80-112 | With a pause of at most one block, the phrases are the maximal runs of speech. |
| Transcribe.Runs | smartcretary/realtime_transcribe.py:94-104 | An independent cut into maximal runs of speech; `ScanIsRuns` ties the loop to it. |
| Transcribe.EmittedSpec | smartcretary/realtime_transcribe.py:80-112 | After the sentinel every spoken block has been sent once, in order, in non-empty phrases that are the runs between silences. |
| Transcribe.Emitted | smartcretary/realtime_transcribe.py:80-112 | The phrases handed to `_transcribe_phrase`; stated by `EmittedSpec` and `WithoutSentinelPending`. |
| Transcribe.WithoutSentinelPending | smartcretary/realtime_transcribe.py:84-85 | Without the sentinel the last phrase waits; the sentinel flushes it. |
| Transcribe.TextsAppend | smartcretary/realtime_transcribe.py:136-139 | Each phrase appends its text, if any, in phrase order. |
| Transcribe.PhraseTexts | smartcretary/realtime_transcribe.py:136-139 | The text one phrase keeps, if any; stated with `Texts` by `TextsClean`. |
| Transcribe.Texts | smartcretary/realtime_transcribe.py:136-139 | The texts of a list of phrases; stated by `TextsAppend` and `TextsClean`. |
| Transcribe.TextsClean | smartcretary/realtime_transcribe.py:136-139 | Every kept text is non-empty and already stripped, at most one per phrase. |
| Transcribe.SummaryRequestFor | smartcretary/realtime_transcribe.py:141-152 | A summary is requested iff a host is set and the transcript is non-empty. |
| Transcribe.JoinedHoldsPhrase | smartcretary/realtime_transcribe.py:152 | Every phrase appears in the joined text after the earlier phrases and one space each. |
| Transcribe.SummarySpec | smartcretary/realtime_transcribe.py:152-162 | The summary text is the phrases plus one space between neighbours, and the URL is `http://` followed by the host. |
| Transcribe.Transcriber.constructor | smartcretary/realtime_transcribe.py:50-57 | An empty queue and transcript, not running. |
| Transcribe.Transcriber.AudioCallback | smartcretary/realtime_transcribe.py:63-67 | The block is queued at the back. |
| Transcribe.Transcriber.Start | smartcretary/realtime_transcribe.py:192 | Sets running. |
| Transcribe.Transcriber.Stop | smartcretary/realtime_transcribe.py:210-216 | Queues the sentinel and clears running only when running, so a second stop does nothing. |
| Transcribe.Transcriber.TranscribePhrase | smartcretary/realtime_transcribe.py:115-139 | Appends the stripped text only when it is non-empty. |
| Transcribe.Transcriber.ProcessAudio | smartcretary/realtime_transcribe.py:73-113 | The loop appends the texts of exactly the `Emitted` phrases and consumes the queue up to the sentinel. |
| Transcribe.Transcriber.SummarizeTranscript | smartcretary/realtime_transcribe.py:141-162 | Returns `SummaryRequestFor` of the host and transcript. |

## Left out

- Browser media and transport internals. This covers `getUserMedia`/`getDisplayMedia`, track objects, ICE servers and real `RTCPeerConnection` behaviour. A connection is abstract state, and the `Browser` record supplies each await's outcome and next state.
- The ten 10 ms timer waits (useWebRTC.ts:369-373). They are a bounded list of observed states (`polls`), not timers.
- `startScreenShare`/`stopScreenShare` as hook methods. Their stale-closure `onended` handler and the cancel test are left out too. Only the sender swap is stated (`Media`, and see Findings).
- The `connectionState`/`iceConnectionState` logging handlers. They change no state.
- React render semantics. The constructors stand for the first render, and the sidebar effects run when their methods are called. `formatTime` and scrolling are left out.
- The caption recorder (meeting-room.tsx:305-344), clipboard copy, volume controls and mobile detection are left out. These are UI or foreign calls.
- Socket: `readyState` belongs to the browser and is modelled as a field. `JSON.parse`/`stringify` are abstracted by the `Message` record. Closing the socket on unmount is not modelled.
- Relay: one CONNECTED flag per socket stands for both "not CONNECTED" and "send raised". Both paths disconnect the user.
- WebRTC.Engine.HandleSignal: each handler runs from start to end as one step, and so do `Negotiation.OfferStep`, `Negotiation.AnswerStep` and `Negotiation.JoinedStep`. In the browser, `onmessage` calls `handleSignal` without waiting for it (useSocket.ts:59). Two runs can therefore interleave at their awaits (useWebRTC.ts:363, 367, 371, 382, 387, 390, 411, 415, 430, 453-454). The model does not capture that. As a result, `negotiationInProgress` is always false between steps, and the guard at useWebRTC.ts:451 never blocks.
- Relay: uuids are fresh parameters. asyncio interleaving is not modelled; each handler is atomic.
- Relay: `broadcast_to_room` iterates over a snapshot of the member ids, so the dict-mutation hazard is not modelled.
- Relay: the `create_task` notices are kept as a queue, `notices`, and run by `RunScheduledNotice`.
- `main.py` repeats `manager.py` and `routes.py` except for log text. It is modelled once; rows cite either copy.
- RelayServer.Server.GetRooms: the Python dict's iteration order is not modelled; only the set of rooms listed and each summary are stated.
- Relay.GetRoom is not modelled as a method. `get_room` has no loop and changes no state, so it is a function. The model uses the corrected reply: status 404 for an unknown room (see Findings). The as-written reply is `Relay.GetRoomAsWritten`.
- Strings: `StrLess` compares code points, while JavaScript's `<` and `sort()` compare UTF-16 units. They differ only for characters outside the Basic Multilingual Plane.
- Strings: `trim`/`strip` remove Unicode whitespace, and the model removes the ASCII set.
- Drag positions are integers, not floating point. The cursor is passed explicitly instead of a `MouseEvent`.
- Transcriber: the RMS loudness test is an input flag `silent`, and Whisper is the parameter `recognize`.
- Transcriber: threads, the blocking `queue.get`, `sounddevice`, playback, the verbose print, the prompt text and the HTTP post are left out. `SummarizeTranscript` returns the request it would post.
- Transcribe.Transcriber.ProcessAudio: a queue without the sentinel returns `finished == false`. That stands for the thread still waiting on `get`.

## Findings

| source | as written | input that shows it | evidently intended | confidence | as-written member | corrected member |
|---|---|---|---|---|---|---|
| frontend/app/hooks/useWebRTC.ts:62-68 | `find` picks the first video sender of all connections and only it gets `replaceTrack` | two peers, each connection sending the camera; after starting a screen share the second peer still receives the camera | replace the video track on every peer connection, as the comment at line 62 says | high, not executed | Media.FirstVideoSenderLeavesOthersOnCamera | Media.ReplaceEveryVideoSenderSpec |
| frontend/app/components/meeting-room.tsx:298-300 | `mainIdx` is `findIndex` of the selection, −1 when the selected participant is gone, and `allParticipants[-1]` is `undefined` | bob views alice as main (`isMainVideoLocal` false), alice leaves, and the render reads `mainParticipant.stream` (meeting-room.tsx:418) before the selection effect runs | fall back to the local tile when the selection is not listed | medium, not executed | MeetingRoom.MainTileMissingAfterLeave | MeetingRoom.MainTileSpec |
| backend/smartcretary/signaling/routes.py:110-113 | an unknown room returns the tuple `({"error": "Room not found"}, 404)`, which FastAPI sends as a JSON array with status 200; main.py:243-244 does the same | `GET /rooms/x` when no room `x` exists | status 404 with the body `{"error": "Room not found"}` | high, not executed | Relay.GetRoomUnknownAnswersOk | Relay.GetRoom |

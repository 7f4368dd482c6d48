/** The WebRTC hook of the meeting page (frontend/app/hooks/useWebRTC.ts): one
    `PeerConnection` per remote peer and the `Engine` that owns them, the per-peer maps,
    the participant list and the local media flags. Each handler is one atomic step and
    is proved to perform the pure step of module Negotiation that specifies it. */
module WebRTC {
  import opened Common
  import opened Messages
  import opened Registry
  import opened Media
  import opened Negotiation

  /** An abstract `RTCPeerConnection`: its signaling state, whether a typed remote
      description is set, whether it is closed, every call made into it and the track
      ids its senders carry. */
  class PeerConnection {
    const peerId: string
    const peerName: string
    var signalingState: SignalingState
    var hasRemoteDescription: bool
    var closed: bool
    var calls: seq<Call>
    var senderTracks: seq<nat>

    function View(): Conn
      reads this
    {
      Conn(signalingState, hasRemoteDescription, closed, calls, senderTracks)
    }

    /** `new RTCPeerConnection(...)` followed by `addTrack` for every local track. */
    constructor (id: string, name: string, tracks: seq<nat>)
      ensures peerId == id && peerName == name
      ensures View() == InitialConn(tracks)
    {
      peerId, peerName := id, name;
      signalingState, hasRemoteDescription, closed := Stable, false, false;
      calls, senderTracks := [], tracks;
    }

    /** `setLocalDescription({type: "rollback"})`. */
    method Rollback(ok: bool)
      modifies this
      ensures View() == Rolled(old(View()), ok)
    {
      calls := calls + [Call.Rollback];
      if ok {
        signalingState := Stable;
      }
    }

    method SetRemoteDescription(d: Description, ok: bool, after: SignalingState)
      modifies this
      ensures View() == RemoteSet(old(View()), d, ok, after)
    {
      calls := calls + [SetRemote(d)];
      hasRemoteDescription := hasRemoteDescription || ok;
      signalingState := after;
    }

    method SetLocalDescription(d: Description, after: SignalingState)
      modifies this
      ensures View() == LocalSet(old(View()), d, after)
    {
      calls := calls + [SetLocal(d)];
      signalingState := after;
    }

    /** The state changes the browser makes on its own between two awaits. */
    method Observe(st: SignalingState)
      modifies this
      ensures View() == old(View()).(state := st)
    {
      signalingState := st;
    }

    /** `for (const c of pending) { try { await peer.addIceCandidate(c) } catch {} }`. */
    method AddIceCandidates(cs: seq<Candidate>)
      modifies this
      ensures View() == CandidatesAdded(old(View()), cs)
    {
      var i := 0;
      while i < |cs|
        invariant 0 <= i <= |cs|
        invariant View() == CandidatesAdded(old(View()), cs[..i])
      {
        assert AddCalls(cs[..i + 1]) == AddCalls(cs[..i]) + [AddCandidate(cs[i])] by {
          assert cs[..i + 1] == cs[..i] + [cs[i]];
          AddCallsAppend(cs[..i], [cs[i]]);
        }
        calls := calls + [AddCandidate(cs[i])];
        i := i + 1;
      }
      assert cs[..i] == cs;
    }

    /** The bounded wait for have-remote-offer (useWebRTC.ts:369-373). */
    method WaitForRemoteOffer(polls: seq<SignalingState>)
      modifies this
      ensures View() == Settled(old(View()), polls)
    {
      var waited: nat := 0;
      while signalingState != HaveRemoteOffer && waited < MaxWaits
        invariant waited <= MaxWaits
        invariant Settle(signalingState, polls, waited) == Settle(old(signalingState), polls, 0)
        invariant View() == old(View()).(state := signalingState)
        decreases MaxWaits - waited
      {
        signalingState := Poll(signalingState, polls, waited);
        waited := waited + 1;
      }
    }

    method Close()
      modifies this
      ensures View() == Closing(old(View()))
    {
      closed := true;
      signalingState := Closed;
    }

    /** `stream.getTracks().forEach(track => { if (!hasSender) peer.addTrack(track) })`. */
    method AddTracksIfMissing(ids: seq<nat>)
      modifies this
      ensures View() == old(View()).(senders := AddMissing(old(senderTracks), ids))
    {
      var i := 0;
      while i < |ids|
        invariant 0 <= i <= |ids|
        invariant AddMissing(senderTracks, ids[i..]) == AddMissing(old(senderTracks), ids)
        invariant View() == old(View()).(senders := senderTracks)
      {
        assert ids[i..][1..] == ids[i + 1..];
        if ids[i] !in senderTracks {
          senderTracks := senderTracks + [ids[i]];
        }
        i := i + 1;
      }
    }
  }

  /** How `getUserMedia` settles. */
  datatype Capture = Captured(stream: LocalStream) | Failed(thrown: Thrown)

  function MuteEnvelope(muted: bool): Message {
    Blank("toggleMute").(senderId := Some(CurrentUser), isMuted := Some(muted))
  }

  function VideoEnvelope(on: bool): Message {
    Blank("toggleVideo").(senderId := Some(CurrentUser), isVideoOn := Some(on))
  }

  /** The error `initializeMedia` throws itself when `getUserMedia` is missing. */
  const Unsupported: Thrown := ErrorObject("Error", "getUserMedia is not supported in this browser")

  /** The hook's state: the local media state, the connections (`peersRef`), and the
      bookkeeping `books`, which holds the participant list, the making-offer,
      ignore-offer and negotiation-in-progress flags, the candidate and answer buffers and
      every envelope sent. */
  class Engine {
    const userName: string
    var localStream: Option<LocalStream>
    var isMuted: bool
    var isVideoOn: bool
    var isConnecting: bool
    var error: Option<string>
    var peers: map<string, PeerConnection>
    var books: Books

    /** Each connection is filed under its own peer id, and there is none for the
        current user. */
    predicate Valid()
      reads this
    {
      && (forall k :: k in peers ==> peers[k].peerId == k)
      && CurrentUser !in peers
    }

    function PeerFor(id: string): set<PeerConnection>
      reads this
    {
      if id in peers then {peers[id]} else {}
    }

    function LocalTrackIds(): seq<nat>
      reads this
    {
      if localStream.Some? then TrackIds(localStream.value.tracks) else []
    }

    /** The connection a signal from `id` works on: the existing one, or the one
        `handleSignal` creates first. */
    function PreView(id: string): Conn
      reads this, PeerFor(id)
    {
      if id in peers then peers[id].View() else InitialConn(LocalTrackIds())
    }

    /** The local media state, which only the media operations touch. */
    twostate predicate MediaUnchanged()
      reads this
    {
      && localStream == old(localStream) && isMuted == old(isMuted) && isVideoOn == old(isVideoOn)
      && isConnecting == old(isConnecting) && error == old(error)
    }

    constructor (name: string)
      ensures Valid() && userName == name
      ensures localStream == None && !isMuted && isVideoOn
      ensures !isConnecting && error == None && peers == map[]
      ensures books == Books([], map[], map[], map[], map[], map[], [])
    {
      userName := name;
      localStream := None;
      isMuted, isVideoOn, isConnecting, error := false, true, false, None;
      peers := map[];
      books := Books([], map[], map[], map[], map[], map[], []);
    }

    /** `createPeerConnection` (useWebRTC.ts:246-330): always a new connection, which
        replaces any connection filed under the id without closing it. */
    method CreatePeerConnection(id: string, name: string) returns (p: PeerConnection)
      modifies this
      ensures fresh(p) && p.peerId == id && p.peerName == name
      ensures p.View() == InitialConn(LocalTrackIds())
      ensures peers == old(peers)[id := p]
      ensures books == old(books) && MediaUnchanged()
    {
      p := new PeerConnection(id, name, LocalTrackIds());
      peers := peers[id := p];
    }

    // ---------------------------------------------------------- handleSignal

    /** `handleSignal` (useWebRTC.ts:332-479): a signal from the current user itself
        changes nothing; otherwise the sender's connection is created when missing and
        the pure step `SignalStep` is performed on it. A leave forgets the connection, a
        join replaces it by a fresh one, and every other signal works on the connection
        that was there (or was just created). */
    method HandleSignal(m: Message, env: Browser)
      requires Valid()
      modifies this, PeerFor(m.senderId.GetOr(""))
      ensures Valid() && MediaUnchanged()
      ensures m.senderId.GetOr("") == CurrentUser ==> books == old(books) && peers == old(peers)
      ensures var id := m.senderId.GetOr("");
        id != CurrentUser && m.kind == "participantLeft" ==>
          && peers == old(peers) - {id}
          && books == LeftStep(Side(old(books), old(PreView(id))), id).books
          && (id in old(peers) ==> old(peers[id]).View() == Closing(old(peers[id].View())))
      ensures var id, name := m.senderId.GetOr(""), m.senderName.GetOr("");
        var r := JoinedStep(old(books), id, name, IsPoliteWith(userName, name), env, old(LocalTrackIds()));
        id != CurrentUser && m.kind == "participantJoined" ==>
          && id in peers && fresh(peers[id]) && peers == old(peers)[id := peers[id]]
          && Side(books, peers[id].View()) == r
          && (id in old(peers) ==> old(peers[id]).View() == old(peers[id].View()))
      ensures var id := m.senderId.GetOr("");
        id != CurrentUser && m.kind != "participantLeft" && m.kind != "participantJoined" ==>
          && id in peers
          && Side(books, peers[id].View()) == SignalStep(Side(old(books), old(PreView(id))), userName, m, env, [])
          && (id in old(peers) ==> peers == old(peers))
          && (id !in old(peers) ==> fresh(peers[id]) && peers == old(peers)[id := peers[id]])
    {
      var id, name := m.senderId.GetOr(""), m.senderName.GetOr("");
      if id == CurrentUser {
        return;
      }
      if m.kind == "participantLeft" {
        SignalLeft(id, name);
      } else if m.kind == "participantJoined" {
        SignalJoined(id, name, env);
      } else {
        SignalOther(m, env);
      }
    }

    /** `handleSignal` for a leave: the connection is created when missing, then closed
        and forgotten. */
    method SignalLeft(id: string, name: string)
      requires Valid() && id != CurrentUser
      modifies this, PeerFor(id)
      ensures Valid() && MediaUnchanged()
      ensures peers == old(peers) - {id}
      ensures books == LeftStep(Side(old(books), old(PreView(id))), id).books
      ensures id in old(peers) ==> old(peers[id]).View() == Closing(old(peers[id].View()))
    {
      if id !in peers {
        var _ := CreatePeerConnection(id, name);
      }
      HandleLeft(id);
    }

    /** `handleSignal` for a join: the connection is created when missing, then replaced
        by a fresh one. */
    method SignalJoined(id: string, name: string, env: Browser)
      requires Valid() && id != CurrentUser
      modifies this
      ensures Valid() && MediaUnchanged()
      ensures id in peers && fresh(peers[id]) && peers == old(peers)[id := peers[id]]
      ensures Side(books, peers[id].View())
        == JoinedStep(old(books), id, name, IsPoliteWith(userName, name), env, old(LocalTrackIds()))
    {
      if id !in peers {
        var _ := CreatePeerConnection(id, name);
      }
      HandleJoined(id, name, IsPoliteWith(userName, name), env);
    }

    /** `handleSignal` for every other type: the step works on the sender's connection,
        created first when missing. */
    method SignalOther(m: Message, env: Browser)
      requires Valid() && m.senderId.GetOr("") != CurrentUser
      requires m.kind != "participantLeft" && m.kind != "participantJoined"
      modifies this, PeerFor(m.senderId.GetOr(""))
      ensures Valid() && MediaUnchanged()
      ensures var id := m.senderId.GetOr("");
        && id in peers
        && Side(books, peers[id].View()) == SignalStep(Side(old(books), old(PreView(id))), userName, m, env, [])
        && (id in old(peers) ==> peers == old(peers))
        && (id !in old(peers) ==> fresh(peers[id]) && peers == old(peers)[id := peers[id]])
    {
      var id, name := m.senderId.GetOr(""), m.senderName.GetOr("");
      if id !in peers {
        var _ := CreatePeerConnection(id, name);
      }
      HandleOnPeer(peers[id], m, env);
    }

    /** The signals that work on the sender's connection as it is. */
    method HandleOnPeer(peer: PeerConnection, m: Message, env: Browser)
      requires peer.peerId == m.senderId.GetOr("")
      requires m.kind != "participantLeft" && m.kind != "participantJoined"
      modifies this, peer
      ensures Side(books, peer.View()) == SignalStep(old(Side(books, peer.View())), userName, m, env, [])
      ensures peers == old(peers) && MediaUnchanged()
    {
      if m.kind in {"offer", "answer", "candidate"} {
        HandleNegotiation(peer, m, env);
      } else {
        HandleToggle(m);
      }
    }

    /** The offer, answer and candidate branches (useWebRTC.ts:351-440). */
    method HandleNegotiation(peer: PeerConnection, m: Message, env: Browser)
      requires peer.peerId == m.senderId.GetOr("")
      modifies this, peer
      ensures Side(books, peer.View()) == NegotiationSignal(old(Side(books, peer.View())), userName, m, env)
      ensures peers == old(peers) && MediaUnchanged()
    {
      var id := peer.peerId;
      var polite := IsPoliteWith(userName, m.senderName.GetOr(""));
      if m.kind == "offer" {
        if m.sdp.Some? {
          HandleOffer(peer, id, polite, m.sdp.value, env);
        }
      } else if m.kind == "answer" {
        if m.sdp.Some? {
          HandleAnswer(peer, id, m.sdp.value, env);
        }
      } else if m.kind == "candidate" {
        if m.candidate.Some? {
          HandleCandidate(peer, id, m.candidate.value);
        }
      }
    }

    /** The toggle branches (useWebRTC.ts:466-474); any other type does nothing. */
    method HandleToggle(m: Message)
      requires m.kind !in {"offer", "answer", "candidate", "participantJoined", "participantLeft"}
      modifies this
      ensures books == ToggleStep(old(books), m)
      ensures peers == old(peers) && MediaUnchanged()
    {
      var id := m.senderId.GetOr("");
      if m.kind == "toggleMute" {
        books := books.(participants := SetMuted(books.participants, id, m.isMuted));
      } else if m.kind == "toggleVideo" {
        books := books.(participants := SetVideoOn(books.participants, id, m.isVideoOn));
      }
    }

    method HandleOffer(peer: PeerConnection, id: string, polite: bool, sdp: Description, env: Browser)
      modifies this, peer
      ensures Side(books, peer.View()) == OfferStep(old(Side(books, peer.View())), id, polite, sdp, env)
      ensures peers == old(peers) && MediaUnchanged()
    {
      var collision := Lookup(books.makingOffer, id, false) || peer.signalingState != Stable;
      if collision {
        if !polite {
          books := books.(ignoreOffer := books.ignoreOffer[id := true]);
          return;
        }
        peer.Rollback(env.rollbackOk);
        if !env.rollbackOk {
          books := books.(negotiating := books.negotiating[id := false]);
          return;
        }
      }
      ApplyOffer(peer, id, sdp, env);
    }

    /** Applying the offer and waiting for have-remote-offer (useWebRTC.ts:365-378). */
    method ApplyOffer(peer: PeerConnection, id: string, sdp: Description, env: Browser)
      modifies this, peer
      ensures Side(books, peer.View()) == Negotiation.ApplyOffer(old(books), old(peer.View()), id, sdp, env)
      ensures peers == old(peers) && MediaUnchanged()
    {
      books := books.(ignoreOffer := books.ignoreOffer[id := false]);
      books := books.(negotiating := books.negotiating[id := true]);
      peer.SetRemoteDescription(sdp, env.remoteOk, env.remoteState);
      if !env.remoteOk {
        books := books.(negotiating := books.negotiating[id := false]);
        return;
      }
      peer.WaitForRemoteOffer(env.polls);
      if peer.signalingState != HaveRemoteOffer {
        books := books.(negotiating := books.negotiating[id := false]);
        return;
      }
      DrainAndAnswer(peer, id, env);
    }

    /** Draining the pending candidates, then answering (useWebRTC.ts:379-406). */
    method DrainAndAnswer(peer: PeerConnection, id: string, env: Browser)
      modifies this, peer
      ensures Side(books, peer.View()) == Negotiation.DrainAndAnswer(old(books), old(peer.View()), id, env)
      ensures peers == old(peers) && MediaUnchanged()
    {
      peer.AddIceCandidates(Lookup(books.pendingCandidates, id, []));
      books := books.(pendingCandidates := books.pendingCandidates[id := []]);
      peer.Observe(env.drainState);
      AnswerOffer(peer, id, env);
    }

    /** The answering tail of an accepted offer (useWebRTC.ts:385-406). */
    method AnswerOffer(peer: PeerConnection, id: string, env: Browser)
      modifies this, peer
      ensures Side(books, peer.View()) == Negotiation.AnswerOffer(old(books), old(peer.View()), id, env)
      ensures peers == old(peers) && MediaUnchanged()
    {
      if peer.signalingState == HaveRemoteOffer && env.created.Some? {
        var answer := env.created.value;
        peer.SetLocalDescription(answer, env.localState);
        if env.localOk {
          books := books.(outbox := books.outbox + [AnswerEnvelope(id, answer)]);
        } else if peer.signalingState != HaveRemoteOffer {
          var queued := Lookup(books.pendingAnswers, id, []);
          books := books.(pendingAnswers := books.pendingAnswers[id := queued + [answer]]);
        }
      }
      books := books.(negotiating := books.negotiating[id := false]);
    }

    method HandleAnswer(peer: PeerConnection, id: string, sdp: Description, env: Browser)
      modifies this, peer
      ensures Side(books, peer.View()) == AnswerStep(old(Side(books, peer.View())), id, sdp, env)
      ensures peers == old(peers) && MediaUnchanged()
    {
      if peer.signalingState == HaveLocalOffer {
        peer.SetRemoteDescription(sdp, env.remoteOk, env.remoteState);
        if !env.remoteOk {
          books := books.(negotiating := books.negotiating[id := false]);
          return;
        }
        peer.AddIceCandidates(Lookup(books.pendingCandidates, id, []));
        books := books.(pendingCandidates := books.pendingCandidates[id := []]);
      }
    }

    method HandleCandidate(peer: PeerConnection, id: string, x: Candidate)
      modifies this, peer
      ensures Side(books, peer.View()) == CandidateStep(old(Side(books, peer.View())), id, x)
      ensures peers == old(peers) && MediaUnchanged()
    {
      if peer.hasRemoteDescription && !peer.closed && peer.signalingState != Closed {
        peer.AddIceCandidates([x]);
      } else {
        var pending := Lookup(books.pendingCandidates, id, []);
        books := books.(pendingCandidates := books.pendingCandidates[id := pending + [x]]);
      }
    }

    /** participantJoined (useWebRTC.ts:441-458): list the peer, build a new connection
        and, on the polite end, offer on it. */
    method HandleJoined(id: string, name: string, polite: bool, env: Browser)
      requires Valid() && id != CurrentUser
      modifies this
      ensures Valid() && MediaUnchanged()
      ensures id in peers && fresh(peers[id]) && peers == old(peers)[id := peers[id]]
      ensures Side(books, peers[id].View()) == JoinedStep(old(books), id, name, polite, env, old(LocalTrackIds()))
    {
      books := books.(participants := AddPlaceholder(books.participants, id, name));
      var p := CreatePeerConnection(id, name);
      if polite && !Lookup(books.negotiating, id, false) {
        books := books.(negotiating := books.negotiating[id := true]);
        if env.created.Some? {
          var offer := env.created.value;
          p.SetLocalDescription(offer, env.localState);
          if env.localOk {
            books := books.(outbox := books.outbox + [OfferEnvelope(id, offer)]);
          }
        }
        books := books.(negotiating := books.negotiating[id := false]);
      }
    }

    /** participantLeft (useWebRTC.ts:459-465). */
    method HandleLeft(id: string)
      requires Valid() && id in peers
      modifies this, peers[id]
      ensures Valid() && MediaUnchanged()
      ensures peers == old(peers) - {id}
      ensures Side(books, old(peers[id]).View()) == LeftStep(old(Side(books, peers[id].View())), id)
    {
      books := books.(participants := Without(books.participants, id));
      peers[id].Close();
      peers := peers - {id};
      books := books.(negotiating := books.negotiating - {id}, makingOffer := books.makingOffer - {id});
      books := books.(ignoreOffer := books.ignoreOffer - {id});
    }

    // ------------------------------------------------ connection callbacks

    /** `peer.onsignalingstatechange` after the browser moved `peer` to `st`. */
    method OnSignalingStateChange(peer: PeerConnection, st: SignalingState, env: Browser)
      modifies this, peer
      ensures Side(books, peer.View()) == StateChangeStep(old(Side(books, peer.View())), peer.peerId, st, env)
      ensures peers == old(peers) && MediaUnchanged()
    {
      peer.Observe(st);
      var queued := Lookup(books.pendingAnswers, peer.peerId, []);
      if peer.signalingState == HaveRemoteOffer && |queued| > 0 {
        var answer := queued[0];
        queued := queued[1..];
        peer.SetLocalDescription(answer, env.localState);
        if env.localOk {
          books := books.(outbox := books.outbox + [AnswerEnvelope(peer.peerId, answer)]);
        }
        books := books.(pendingAnswers := books.pendingAnswers[peer.peerId := queued]);
      }
    }

    /** `peer.onnegotiationneeded` up to its first await. */
    method NegotiationNeededStart(peer: PeerConnection)
      modifies this
      ensures books == NegotiationStart(old(books), peer.peerId)
      ensures peers == old(peers) && MediaUnchanged()
    {
      books := books.(makingOffer := books.makingOffer[peer.peerId := true]);
    }

    /** The rest of `peer.onnegotiationneeded`, once its promises settle. */
    method NegotiationNeededFinish(peer: PeerConnection, env: Browser)
      modifies this, peer
      ensures Side(books, peer.View()) == NegotiationFinish(old(Side(books, peer.View())), peer.peerId, env)
      ensures peers == old(peers) && MediaUnchanged()
    {
      if env.created.Some? {
        var offer := env.created.value;
        peer.SetLocalDescription(offer, env.localState);
        if env.localOk {
          books := books.(outbox := books.outbox + [OfferEnvelope(peer.peerId, offer)]);
        }
      }
      books := books.(makingOffer := books.makingOffer[peer.peerId := false]);
    }

    /** `peer.ontrack` with the event's first stream. */
    method OnTrack(peer: PeerConnection, stream: StreamRef)
      modifies this
      ensures books == old(books).(participants := Registry.OnTrack(old(books.participants), peer.peerId, peer.peerName, stream))
      ensures peers == old(peers) && MediaUnchanged()
    {
      books := books.(participants := Registry.OnTrack(books.participants, peer.peerId, peer.peerName, stream));
    }

    /** `peer.onicecandidate`: a gathered candidate goes to that peer; the end of
        gathering (`null`) sends nothing. */
    method OnIceCandidate(peer: PeerConnection, candidate: Option<Candidate>)
      modifies this
      ensures candidate.Some? ==> books == old(books).(outbox := old(books.outbox) + [CandidateEnvelope(peer.peerId, candidate.value)])
      ensures candidate.None? ==> books == old(books)
      ensures peers == old(peers) && MediaUnchanged()
    {
      if candidate.Some? {
        books := books.(outbox := books.outbox + [CandidateEnvelope(peer.peerId, candidate.value)]);
      }
    }

    // ------------------------------------------------------- local media

    /** `toggleMute` (useWebRTC.ts:224-233): flip the first audio track, report the new
        state, and tell the room. Without a stream or an audio track nothing happens. */
    method ToggleMute()
      modifies this
      ensures var ls := old(localStream);
        if ls.Some? && FirstOfKind(ls.value.tracks, AudioTrack).Some? then
          var wasOn := ls.value.tracks[FirstOfKind(ls.value.tracks, AudioTrack).value].enabled;
          && localStream == Some(FlipFirst(ls.value, AudioTrack))
          && isMuted == wasOn
          && books == old(books).(outbox := old(books.outbox) + [MuteEnvelope(wasOn)])
        else localStream == ls && isMuted == old(isMuted) && books == old(books)
      ensures isVideoOn == old(isVideoOn) && isConnecting == old(isConnecting) && error == old(error)
      ensures peers == old(peers)
    {
      if localStream.Some? {
        var ls := localStream.value;
        var audio := FirstOfKind(ls.tracks, AudioTrack);
        if audio.Some? {
          var flipped := FlipFirst(ls, AudioTrack);
          var enabled := flipped.tracks[audio.value].enabled;
          localStream := Some(flipped);
          isMuted := !enabled;
          books := books.(outbox := books.outbox + [MuteEnvelope(!enabled)]);
        }
      }
    }

    /** `toggleVideo` (useWebRTC.ts:235-244), the same for the first video track. */
    method ToggleVideo()
      modifies this
      ensures var ls := old(localStream);
        if ls.Some? && FirstOfKind(ls.value.tracks, VideoTrack).Some? then
          var wasOn := ls.value.tracks[FirstOfKind(ls.value.tracks, VideoTrack).value].enabled;
          && localStream == Some(FlipFirst(ls.value, VideoTrack))
          && isVideoOn == !wasOn
          && books == old(books).(outbox := old(books.outbox) + [VideoEnvelope(!wasOn)])
        else localStream == ls && isVideoOn == old(isVideoOn) && books == old(books)
      ensures isMuted == old(isMuted) && isConnecting == old(isConnecting) && error == old(error)
      ensures peers == old(peers)
    {
      if localStream.Some? {
        var ls := localStream.value;
        var video := FirstOfKind(ls.tracks, VideoTrack);
        if video.Some? {
          var flipped := FlipFirst(ls, VideoTrack);
          var enabled := flipped.tracks[video.value].enabled;
          localStream := Some(flipped);
          isVideoOn := enabled;
          books := books.(outbox := books.outbox + [VideoEnvelope(enabled)]);
        }
      }
    }

    /** `initializeMedia` (useWebRTC.ts:137-222). `supported` says whether
        `getUserMedia` exists, `protocol` and `hostname` are the page's location, `capture` how
        `getUserMedia` settles. On success every existing connection gets the local tracks
        it does not send yet; on failure the error text is set and the error rethrown
        (`thrown`). */
    method InitializeMedia(supported: bool, protocol: string, hostname: string, capture: Capture) returns (thrown: Option<Thrown>)
      requires Valid()
      modifies this, peers.Values
      ensures peers == old(peers) && books == old(books) && !isConnecting
      ensures isMuted == old(isMuted) && isVideoOn == old(isVideoOn)
      ensures var failure := if !supported then Some(Unsupported)
                             else if capture.Failed? then Some(capture.thrown) else None;
        && thrown == failure
        && (failure.Some? ==>
              && error == Some(MediaErrorMessage(failure.value, IsSecureContext(protocol, hostname)))
              && localStream == old(localStream)
              && forall k :: k in peers ==> peers[k].View() == old(peers[k].View()))
        && (failure.None? ==> error == None && localStream == Some(capture.stream))
      ensures supported && capture.Captured? ==> forall k :: k in peers ==>
        peers[k].View() == old(peers[k].View()).(senders := AddMissing(old(peers[k].senderTracks), TrackIds(capture.stream.tracks)))
    {
      isConnecting := true;
      error := None;
      if !supported || capture.Failed? {
        var t := if !supported then Unsupported else capture.thrown;
        error := Some(MediaErrorMessage(t, IsSecureContext(protocol, hostname)));
        isConnecting := false;
        return Some(t);
      }
      var stream := capture.stream;
      localStream := Some(stream);
      isConnecting := false;
      AddTracksToPeers(TrackIds(stream.tracks));
      return None;
    }

    /** The `forEach` of `initializeMedia` over the existing connections
        (useWebRTC.ts:180-188). */
    method AddTracksToPeers(ids: seq<nat>)
      requires Valid()
      modifies peers.Values
      ensures forall k :: k in peers ==>
        peers[k].View() == old(peers[k].View()).(senders := AddMissing(old(peers[k].senderTracks), ids))
    {
      var todo := peers.Keys;
      while todo != {}
        invariant todo <= peers.Keys
        invariant forall k :: k in peers && k !in todo ==>
          peers[k].View() == old(peers[k].View()).(senders := AddMissing(old(peers[k].senderTracks), ids))
        invariant forall k :: k in todo ==> peers[k].View() == old(peers[k].View())
        decreases |todo|
      {
        var k :| k in todo;
        var p := peers[k];
        assert forall j :: j in peers && j != k ==> peers[j] != p;
        p.AddTracksIfMissing(ids);
        todo := todo - {k};
      }
    }

    /** The `forEach` of `cleanup` that closes every connection (useWebRTC.ts:493-496). */
    method ClosePeers()
      requires Valid()
      modifies peers.Values
      ensures forall k :: k in peers ==> peers[k].View() == Closing(old(peers[k].View()))
    {
      var todo := peers.Keys;
      while todo != {}
        invariant todo <= peers.Keys
        invariant forall k :: k in peers && k !in todo ==> peers[k].View() == Closing(old(peers[k].View()))
        invariant forall k :: k in todo ==> peers[k].View() == old(peers[k].View())
        decreases |todo|
      {
        var k :| k in todo;
        var p := peers[k];
        assert forall j :: j in peers && j != k ==> peers[j] != p;
        p.Close();
        todo := todo - {k};
      }
    }

    /** `cleanup` (useWebRTC.ts:483-504): stop the local stream, close and forget every
        connection, empty the participant list and reset the media flags. The
        making-offer and ignore-offer flags and both pending buffers are kept. */
    method Cleanup()
      requires Valid()
      modifies this, peers.Values
      ensures Valid()
      ensures localStream == None && peers == map[] && !isMuted && isVideoOn && error == None
      ensures isConnecting == old(isConnecting)
      ensures books == old(books).(participants := [], negotiating := map[])
      ensures forall k :: k in old(peers) ==> old(peers[k]).View() == Closing(old(peers[k].View()))
    {
      ClosePeers();
      localStream := None;
      books := books.(negotiating := books.negotiating - peers.Keys);
      peers := map[];
      books := books.(negotiating := map[], participants := []);
      isMuted, isVideoOn, error := false, true, None;
    }
  }
}

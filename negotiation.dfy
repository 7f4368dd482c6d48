/** The per-peer offer/answer logic of the WebRTC hook (frontend/app/hooks/useWebRTC.ts),
    as pure steps over the hook's bookkeeping (`Books`) and one connection's observable
    state (`Conn`). The classes in module WebRTC perform these steps in place and are
    proved against them.

    A browser promise (createOffer, createAnswer, setLocalDescription,
    setRemoteDescription, addIceCandidate, the 10 ms waits) is one atomic step; whether it
    resolves and which signaling state the connection is in afterwards come from a
    `Browser` record, the environment. */
module Negotiation {
  import opened Common
  import opened Messages
  import opened Registry

  /** The JSEP signaling states the hook distinguishes. */
  datatype SignalingState = Stable | HaveLocalOffer | HaveRemoteOffer | Closed

  /** A call the hook makes into a connection, logged whether or not the browser
      accepts it. */
  datatype Call =
    | Rollback
    | SetRemote(remote: Description)
    | SetLocal(local: Description)
    | AddCandidate(candidate: Candidate)

  /** What the hook can observe of one `RTCPeerConnection`, and every call made into it. */
  datatype Conn = Conn(
    state: SignalingState,
    hasRemote: bool,
    closed: bool,
    calls: seq<Call>,
    senders: seq<nat>)

  /** A connection just built by `createPeerConnection`, which adds every local track. */
  function InitialConn(tracks: seq<nat>): Conn {
    Conn(Stable, false, false, [], tracks)
  }

  /** The hook's per-peer maps, the participant list and every envelope handed to
      `sendJsonMessage`, oldest first. */
  datatype Books = Books(
    participants: seq<Participant>,
    makingOffer: map<string, bool>,
    ignoreOffer: map<string, bool>,
    negotiating: map<string, bool>,
    pendingCandidates: map<string, seq<Candidate>>,
    pendingAnswers: map<string, seq<Description>>,
    outbox: seq<Message>)

  /** The bookkeeping together with the connection a step works on. */
  datatype Side = Side(books: Books, conn: Conn)

  /** How the browser settles the promises of one handler run. `remoteState`,
      `localState` and `drainState` are the signaling states seen when
      setRemoteDescription settles, when setLocalDescription settles, and after the
      pending candidates were added; `polls` are the states seen after each 10 ms wait;
      `created` is what createOffer or createAnswer resolved to (`None`: it rejected). */
  datatype Browser = Browser(
    rollbackOk: bool,
    remoteOk: bool,
    remoteState: SignalingState,
    polls: seq<SignalingState>,
    drainState: SignalingState,
    created: Option<Description>,
    localOk: bool,
    localState: SignalingState)

  // ------------------------------------------------------------ politeness

  /** `isPoliteWith(peerName)`: the lexicographically lower name is the polite end. */
  predicate IsPoliteWith(userName: string, peerName: string) {
    StrLess(userName, peerName)
  }

  /** Of two distinct names exactly one end is polite; a name is never polite with
      itself, so two users of the same name both act impolite. */
  lemma PolitenessSpec(a: string, b: string)
    ensures a != b ==> (IsPoliteWith(a, b) <==> !IsPoliteWith(b, a))
    ensures !IsPoliteWith(a, a)
  {
    StrLessTrichotomy(a, b);
    StrLessAsymmetric(a, b);
    StrLessIrreflexive(a);
  }

  // ------------------------------------------------------- outbound envelopes

  function OfferEnvelope(target: string, d: Description): Message {
    Blank("offer").(sdp := Some(d), targetId := Some(target), senderId := Some(CurrentUser))
  }

  function AnswerEnvelope(target: string, d: Description): Message {
    Blank("answer").(sdp := Some(d), targetId := Some(target), senderId := Some(CurrentUser))
  }

  function CandidateEnvelope(target: string, c: Candidate): Message {
    Blank("candidate").(candidate := Some(c), targetId := Some(target), senderId := Some(CurrentUser))
  }

  // ------------------------------------------------- connection transitions

  /** setLocalDescription({type: "rollback"}): a resolved rollback returns to stable. */
  function Rolled(c: Conn, ok: bool): Conn {
    c.(calls := c.calls + [Rollback], state := if ok then Stable else c.state)
  }

  function RemoteSet(c: Conn, d: Description, ok: bool, after: SignalingState): Conn {
    c.(calls := c.calls + [SetRemote(d)], hasRemote := c.hasRemote || ok, state := after)
  }

  function LocalSet(c: Conn, d: Description, after: SignalingState): Conn {
    c.(calls := c.calls + [SetLocal(d)], state := after)
  }

  function AddCalls(cs: seq<Candidate>): (r: seq<Call>)
    ensures |r| == |cs|
    ensures forall i :: 0 <= i < |cs| ==> r[i] == AddCandidate(cs[i])
  {
    if cs == [] then [] else [AddCandidate(cs[0])] + AddCalls(cs[1..])
  }

  function CandidatesAdded(c: Conn, cs: seq<Candidate>): Conn {
    c.(calls := c.calls + AddCalls(cs))
  }

  function Closing(c: Conn): Conn {
    c.(closed := true, state := Closed)
  }

  /** The wait for have-remote-offer: at most ten 10 ms waits, each followed by a look at
      the state (`polls[k]` after the k-th wait; a missing entry means no change). */
  const MaxWaits: nat := 10

  function Poll(st: SignalingState, polls: seq<SignalingState>, k: nat): SignalingState {
    if k < |polls| then polls[k] else st
  }

  function Settle(st: SignalingState, polls: seq<SignalingState>, waited: nat): SignalingState
    decreases MaxWaits - waited
  {
    if st == HaveRemoteOffer || waited >= MaxWaits then st
    else Settle(Poll(st, polls, waited), polls, waited + 1)
  }

  /** The wait ends in have-remote-offer exactly when the state already was, or one of
      the looks within the ten waits saw it. */
  lemma {:induction false} SettleSpec(st: SignalingState, polls: seq<SignalingState>, waited: nat)
    ensures Settle(st, polls, waited) == HaveRemoteOffer <==>
      (st == HaveRemoteOffer ||
       exists k :: waited <= k < MaxWaits && k < |polls| && polls[k] == HaveRemoteOffer)
    decreases MaxWaits - waited
  {
    if st != HaveRemoteOffer && waited < MaxWaits {
      var next := Poll(st, polls, waited);
      SettleSpec(next, polls, waited + 1);
      if next == HaveRemoteOffer {
        assert waited < |polls| && polls[waited] == HaveRemoteOffer;
      }
      if exists k :: waited <= k < MaxWaits && k < |polls| && polls[k] == HaveRemoteOffer {
        var k :| waited <= k < MaxWaits && k < |polls| && polls[k] == HaveRemoteOffer;
        if k == waited {
          assert next == HaveRemoteOffer;
        }
      }
    }
  }

  function Settled(c: Conn, polls: seq<SignalingState>): Conn {
    c.(state := Settle(c.state, polls, 0))
  }

  // --------------------------------------------------------- bookkeeping

  function Pending(b: Books, id: string): seq<Candidate> {
    Lookup(b.pendingCandidates, id, [])
  }

  function QueuedAnswers(b: Books, id: string): seq<Description> {
    Lookup(b.pendingAnswers, id, [])
  }

  /** `negotiationInProgressRef.current.set(senderId, false)`, at the end of a handler
      run or in its catch. */
  function Done(b: Books, id: string): Books {
    b.(negotiating := b.negotiating[id := false])
  }

  function Send(b: Books, m: Message): Books {
    b.(outbox := b.outbox + [m])
  }

  /** `makingOffer || peer.signalingState !== "stable"`. */
  predicate OfferCollision(b: Books, c: Conn, id: string) {
    Lookup(b.makingOffer, id, false) || c.state != Stable
  }

  // -------------------------------------------------------------- offer

  /** An offer with a description (useWebRTC.ts:351-407): the collision check and the
      polite end's rollback. */
  function OfferStep(s: Side, id: string, polite: bool, sdp: Description, env: Browser): Side {
    var b, c := s.books, s.conn;
    var collision := OfferCollision(b, c, id);
    if collision && !polite then Side(b.(ignoreOffer := b.ignoreOffer[id := true]), c)
    else
      var c0 := if collision then Rolled(c, env.rollbackOk) else c;
      if collision && !env.rollbackOk then Side(Done(b, id), c0)
      else ApplyOffer(b, c0, id, sdp, env)
  }

  /** Applying the offer and waiting for have-remote-offer (useWebRTC.ts:365-378). */
  function ApplyOffer(b: Books, c: Conn, id: string, sdp: Description, env: Browser): Side {
    var b1 := b.(ignoreOffer := b.ignoreOffer[id := false], negotiating := b.negotiating[id := true]);
    var c1 := RemoteSet(c, sdp, env.remoteOk, env.remoteState);
    if !env.remoteOk then Side(Done(b1, id), c1)
    else
      var c2 := Settled(c1, env.polls);
      if c2.state != HaveRemoteOffer then Side(Done(b1, id), c2)
      else DrainAndAnswer(b1, c2, id, env)
  }

  /** Draining the pending candidates, then answering (useWebRTC.ts:379-406). */
  function DrainAndAnswer(b: Books, c: Conn, id: string, env: Browser): Side {
    var b3 := b.(pendingCandidates := b.pendingCandidates[id := []]);
    var c3 := CandidatesAdded(c, Pending(b, id)).(state := env.drainState);
    AnswerOffer(b3, c3, id, env)
  }

  /** The answering tail of an accepted offer (useWebRTC.ts:385-406): answer only in
      have-remote-offer; queue the answer when setting it fails and the state has moved
      on. */
  function AnswerOffer(b: Books, c: Conn, id: string, env: Browser): Side {
    if c.state != HaveRemoteOffer || env.created.None? then Side(Done(b, id), c)
    else
      var a := env.created.value;
      var c1 := LocalSet(c, a, env.localState);
      if env.localOk then Side(Done(Send(b, AnswerEnvelope(id, a)), id), c1)
      else if env.localState != HaveRemoteOffer then
        Side(Done(b.(pendingAnswers := b.pendingAnswers[id := QueuedAnswers(b, id) + [a]]), id), c1)
      else Side(Done(b, id), c1)
  }

  /** Whether the offer got past the collision check and its rollback. */
  predicate OfferProceeds(s: Side, id: string, polite: bool, env: Browser) {
    !OfferCollision(s.books, s.conn, id) || (polite && env.rollbackOk)
  }

  /** Whether the offer was applied and the wait ended in have-remote-offer, which is
      when the pending candidates are drained. */
  predicate OfferAccepted(s: Side, id: string, polite: bool, env: Browser) {
    OfferProceeds(s, id, polite, env) && env.remoteOk &&
    Settle(env.remoteState, env.polls, 0) == HaveRemoteOffer
  }

  /** Glare: the impolite end only records that it ignores the offer, makes no call and
      sends nothing; the polite end first rolls back, and only then applies the remote
      offer; without a collision the remote offer is the first call. */
  lemma OfferCollisionSpec(s: Side, id: string, polite: bool, sdp: Description, env: Browser)
    ensures var r, c := OfferStep(s, id, polite, sdp, env), s.conn;
      && (OfferCollision(s.books, c, id) && !polite ==>
            r == Side(s.books.(ignoreOffer := s.books.ignoreOffer[id := true]), c))
      && (OfferCollision(s.books, c, id) && polite && !env.rollbackOk ==>
            r.conn.calls == c.calls + [Rollback])
      && (OfferProceeds(s, id, polite, env) ==>
            var head := (if OfferCollision(s.books, c, id) then [Rollback] else []) + [SetRemote(sdp)];
            |r.conn.calls| >= |c.calls| + |head| && r.conn.calls[..|c.calls| + |head|] == c.calls + head)
  {
    var c := s.conn;
    if OfferProceeds(s, id, polite, env) {
      var head := (if OfferCollision(s.books, c, id) then [Rollback] else []) + [SetRemote(sdp)];
      var r := OfferStep(s, id, polite, sdp, env);
      OfferCallsExtend(s, id, polite, sdp, env);
      assert r.conn.calls[..|c.calls| + |head|] == c.calls + head;
    }
  }

  /** Past the collision check, the calls made are the rollback (on a collision), the
      remote offer, and possibly more after them. */
  lemma OfferCallsExtend(s: Side, id: string, polite: bool, sdp: Description, env: Browser)
    requires OfferProceeds(s, id, polite, env)
    ensures var head := (if OfferCollision(s.books, s.conn, id) then [Rollback] else []) + [SetRemote(sdp)];
      exists tail :: OfferStep(s, id, polite, sdp, env).conn.calls == s.conn.calls + head + tail
  {
    var c := s.conn;
    var head := (if OfferCollision(s.books, c, id) then [Rollback] else []) + [SetRemote(sdp)];
    var c0 := if OfferCollision(s.books, c, id) then Rolled(c, env.rollbackOk) else c;
    var c1 := RemoteSet(c0, sdp, env.remoteOk, env.remoteState);
    assert c1.calls == c.calls + head;
    var r := OfferStep(s, id, polite, sdp, env);
    if !env.remoteOk || Settle(c1.state, env.polls, 0) != HaveRemoteOffer {
      assert r.conn.calls == c.calls + head + [];
    } else {
      var pend := Pending(s.books, id);
      var c3calls := c1.calls + AddCalls(pend);
      if env.drainState == HaveRemoteOffer && env.created.Some? {
        assert r.conn.calls == c.calls + head + (AddCalls(pend) + [SetLocal(env.created.value)]);
      } else {
        assert r.conn.calls == c.calls + head + AddCalls(pend);
      }
    }
  }

  /** Every offer that gets past the impolite check ends with no negotiation flagged for
      the peer, sends at most one envelope, an answer to the sender carrying what
      createAnswer produced, keeps the participant list and the making-offer flags, and
      queues at most that answer. */
  lemma OfferFinishesSpec(s: Side, id: string, polite: bool, sdp: Description, env: Browser)
    requires !OfferCollision(s.books, s.conn, id) || polite
    ensures var r, b := OfferStep(s, id, polite, sdp, env).books, s.books;
      && r.negotiating == b.negotiating[id := false]
      && r.participants == b.participants
      && r.makingOffer == b.makingOffer
      && (r.outbox == b.outbox ||
          (env.created.Some? && r.outbox == b.outbox + [AnswerEnvelope(id, env.created.value)]))
      && (r.pendingAnswers == b.pendingAnswers ||
          (env.created.Some? && !env.localOk && env.localState != HaveRemoteOffer &&
           r.pendingAnswers == b.pendingAnswers[id := QueuedAnswers(b, id) + [env.created.value]]))
  {
    if OfferAccepted(s, id, polite, env) {
      var b3, c3 := OfferReachesAnswer(s, id, polite, sdp, env);
      AnswerOfferSpec(b3, c3, id, env);
      assert b3.negotiating[id := false] == s.books.negotiating[id := false];
    }
  }

  /** An accepted offer ends in the answer step, on books that differ from the ones it
      started with only in the flags and the candidate buffer. */
  lemma OfferReachesAnswer(s: Side, id: string, polite: bool, sdp: Description, env: Browser)
      returns (b3: Books, c3: Conn)
    requires OfferAccepted(s, id, polite, env)
    ensures OfferStep(s, id, polite, sdp, env) == AnswerOffer(b3, c3, id, env)
    ensures b3.negotiating == s.books.negotiating[id := true]
    ensures b3.participants == s.books.participants && b3.makingOffer == s.books.makingOffer
    ensures b3.outbox == s.books.outbox && b3.pendingAnswers == s.books.pendingAnswers
  {
    var b, c := s.books, s.conn;
    var b1 := b.(ignoreOffer := b.ignoreOffer[id := false], negotiating := b.negotiating[id := true]);
    b3 := b1.(pendingCandidates := b1.pendingCandidates[id := []]);
    var c0 := if OfferCollision(b, c, id) then Rolled(c, env.rollbackOk) else c;
    var c2 := Settled(RemoteSet(c0, sdp, env.remoteOk, env.remoteState), env.polls);
    c3 := CandidatesAdded(c2, Pending(b1, id)).(state := env.drainState);
  }

  lemma AnswerOfferSpec(b: Books, c: Conn, id: string, env: Browser)
    ensures var r := AnswerOffer(b, c, id, env).books;
      && r.negotiating == b.negotiating[id := false]
      && r.participants == b.participants
      && r.makingOffer == b.makingOffer
      && (r.outbox == b.outbox ||
          (env.created.Some? && r.outbox == b.outbox + [AnswerEnvelope(id, env.created.value)]))
      && (r.pendingAnswers == b.pendingAnswers ||
          (env.created.Some? && !env.localOk && env.localState != HaveRemoteOffer &&
           r.pendingAnswers == b.pendingAnswers[id := QueuedAnswers(b, id) + [env.created.value]]))
  {
    if c.state == HaveRemoteOffer && env.created.Some? {
      var a := env.created.value;
      var r := AnswerOffer(b, c, id, env).books;
      if env.localOk {
        assert r == Done(Send(b, AnswerEnvelope(id, a)), id);
      } else if env.localState != HaveRemoteOffer {
        assert r == Done(b.(pendingAnswers := b.pendingAnswers[id := QueuedAnswers(b, id) + [a]]), id);
      } else {
        assert r == Done(b, id);
      }
    }
  }

  /** An accepted offer adds every pending candidate once, in arrival order, right after
      the remote offer, empties the queue, and answers only when still in
      have-remote-offer after that; an offer that is not accepted leaves the candidate
      queues alone. */
  lemma OfferAcceptedDrains(s: Side, id: string, polite: bool, sdp: Description, env: Browser)
    ensures var r, c := OfferStep(s, id, polite, sdp, env), s.conn;
      && (OfferAccepted(s, id, polite, env) ==>
            var head := (if OfferCollision(s.books, c, id) then [Rollback] else []) + [SetRemote(sdp)];
            var k := |c.calls| + |head| + |Pending(s.books, id)|;
            && Pending(r.books, id) == []
            && |r.conn.calls| >= k
            && r.conn.calls[..k] == c.calls + head + AddCalls(Pending(s.books, id))
            && (env.drainState != HaveRemoteOffer ==> r.conn.calls == c.calls + head + AddCalls(Pending(s.books, id))))
      && (!OfferAccepted(s, id, polite, env) ==> r.books.pendingCandidates == s.books.pendingCandidates)
  {
    if OfferAccepted(s, id, polite, env) {
      var b, c := s.books, s.conn;
      var head := (if OfferCollision(b, c, id) then [Rollback] else []) + [SetRemote(sdp)];
      var pre := c.calls + head + AddCalls(Pending(b, id));
      var r := OfferStep(s, id, polite, sdp, env);
      var c0 := if OfferCollision(b, c, id) then Rolled(c, env.rollbackOk) else c;
      var b1 := b.(ignoreOffer := b.ignoreOffer[id := false], negotiating := b.negotiating[id := true]);
      var c2 := Settled(RemoteSet(c0, sdp, env.remoteOk, env.remoteState), env.polls);
      assert c2.calls == c.calls + head;
      assert r == DrainAndAnswer(b1, c2, id, env);
      assert Pending(b1, id) == Pending(b, id);
      DrainAndAnswerCalls(b1, c2, id, env);
      assert r.conn.calls[..|pre|] == pre;
    }
  }

  /** Draining makes exactly the pending candidates' calls, then at most the answer. */
  lemma DrainAndAnswerCalls(b: Books, c: Conn, id: string, env: Browser)
    ensures var r := DrainAndAnswer(b, c, id, env);
      && Pending(r.books, id) == []
      && r.conn.calls == c.calls + AddCalls(Pending(b, id)) +
           (if env.drainState == HaveRemoteOffer && env.created.Some? then [SetLocal(env.created.value)] else [])
  {
    var b3 := b.(pendingCandidates := b.pendingCandidates[id := []]);
    var c3 := CandidatesAdded(c, Pending(b, id)).(state := env.drainState);
    var r := AnswerOffer(b3, c3, id, env);
    assert r.books.pendingCandidates == b3.pendingCandidates;
    if env.drainState == HaveRemoteOffer && env.created.Some? {
      assert r.conn == LocalSet(c3, env.created.value, env.localState);
    } else {
      assert r.conn == c3;
    }
  }

  /** The answer is queued exactly when it was created, setting it failed and the state
      has meanwhile left have-remote-offer; it then goes to the back of the peer's queue. */
  lemma OfferQueuesAnswer(s: Side, id: string, polite: bool, sdp: Description, env: Browser)
    ensures var r := OfferStep(s, id, polite, sdp, env).books;
      var queues := OfferAccepted(s, id, polite, env) && env.drainState == HaveRemoteOffer &&
        env.created.Some? && !env.localOk && env.localState != HaveRemoteOffer;
      && (queues ==> QueuedAnswers(r, id) == QueuedAnswers(s.books, id) + [env.created.value])
      && (!queues ==> r.pendingAnswers == s.books.pendingAnswers)
  {
  }

  // -------------------------------------------------------------- answer

  /** An answer with a description (useWebRTC.ts:408-421): applied only in
      have-local-offer, after which every pending candidate is added and the queue
      emptied; a rejected setRemoteDescription lands in the handler's catch. */
  function AnswerStep(s: Side, id: string, sdp: Description, env: Browser): Side {
    if s.conn.state != HaveLocalOffer then s
    else
      var c1 := RemoteSet(s.conn, sdp, env.remoteOk, env.remoteState);
      if !env.remoteOk then Side(Done(s.books, id), c1)
      else
        Side(s.books.(pendingCandidates := s.books.pendingCandidates[id := []]),
             CandidatesAdded(c1, Pending(s.books, id)))
  }

  /** An answer outside have-local-offer changes nothing at all; in have-local-offer the
      calls are exactly the remote answer and then the pending candidates in arrival
      order, and nothing is sent. */
  lemma AnswerStepSpec(s: Side, id: string, sdp: Description, env: Browser)
    ensures var r := AnswerStep(s, id, sdp, env);
      && (s.conn.state != HaveLocalOffer ==> r == s)
      && r.books.outbox == s.books.outbox
      && r.books.participants == s.books.participants
      && (s.conn.state == HaveLocalOffer && env.remoteOk ==>
            && r.conn.calls == s.conn.calls + [SetRemote(sdp)] + AddCalls(Pending(s.books, id))
            && r.conn.hasRemote
            && Pending(r.books, id) == []
            && r.books.pendingAnswers == s.books.pendingAnswers)
      && (s.conn.state == HaveLocalOffer && !env.remoteOk ==>
            r.conn.calls == s.conn.calls + [SetRemote(sdp)] && r.books == Done(s.books, id))
  {
  }

  // ----------------------------------------------------------- candidates

  /** Whether a candidate can be added now: a typed remote description is set and
      neither the connection nor its signaling is closed. */
  predicate CanApply(c: Conn) {
    c.hasRemote && !c.closed && c.state != Closed
  }

  /** A candidate envelope with a candidate (useWebRTC.ts:422-440). */
  function CandidateStep(s: Side, id: string, x: Candidate): Side {
    if CanApply(s.conn) then Side(s.books, CandidatesAdded(s.conn, [x]))
    else Side(s.books.(pendingCandidates := s.books.pendingCandidates[id := Pending(s.books, id) + [x]]), s.conn)
  }

  /** Several candidate envelopes from one peer, in arrival order. */
  function CandidateArrivals(s: Side, id: string, xs: seq<Candidate>): Side
    decreases |xs|
  {
    if xs == [] then s else CandidateArrivals(CandidateStep(s, id, xs[0]), id, xs[1..])
  }

  lemma {:induction false} AddCallsAppend(a: seq<Candidate>, b: seq<Candidate>)
    ensures AddCalls(a + b) == AddCalls(a) + AddCalls(b)
  {
    if a != [] {
      assert (a + b)[1..] == a[1..] + b;
      AddCallsAppend(a[1..], b);
    } else {
      assert a + b == b;
    }
  }

  /** Candidates that can be added are added at once, in arrival order, and nothing is
      queued. */
  lemma {:induction false} CandidateArrivalsApplied(s: Side, id: string, xs: seq<Candidate>)
    requires CanApply(s.conn)
    ensures var r := CandidateArrivals(s, id, xs);
      r.books == s.books && r.conn == s.conn.(calls := s.conn.calls + AddCalls(xs))
    decreases |xs|
  {
    if xs != [] {
      var s1 := CandidateStep(s, id, xs[0]);
      assert s1.conn == s.conn.(calls := s.conn.calls + [AddCandidate(xs[0])]);
      CandidateArrivalsApplied(s1, id, xs[1..]);
      assert AddCalls(xs) == [AddCandidate(xs[0])] + AddCalls(xs[1..]);
    }
  }

  /** Candidates that cannot be added yet join the back of the peer's queue in arrival
      order, and no call is made. */
  lemma {:induction false} CandidateArrivalsQueued(s: Side, id: string, xs: seq<Candidate>)
    requires !CanApply(s.conn) && id in s.books.pendingCandidates
    ensures var r := CandidateArrivals(s, id, xs);
      && r.conn == s.conn
      && r.books == s.books.(pendingCandidates := s.books.pendingCandidates[id := Pending(s.books, id) + xs])
    decreases |xs|
  {
    var b := s.books;
    if xs == [] {
      assert Pending(b, id) + xs == Pending(b, id);
      assert b.pendingCandidates[id := Pending(b, id)] == b.pendingCandidates;
    } else {
      var s1 := CandidateStep(s, id, xs[0]);
      assert s1.conn == s.conn;
      assert s1.books == b.(pendingCandidates := b.pendingCandidates[id := Pending(b, id) + [xs[0]]]);
      CandidateArrivalsQueued(s1, id, xs[1..]);
      assert Pending(s1.books, id) + xs[1..] == Pending(b, id) + xs;
      assert s1.books.pendingCandidates[id := Pending(b, id) + xs] == b.pendingCandidates[id := Pending(b, id) + xs];
    }
  }

  /** The same when the peer has no queue yet: the arrivals become its queue. */
  lemma CandidateArrivalsFirstQueued(s: Side, id: string, xs: seq<Candidate>)
    requires !CanApply(s.conn) && id !in s.books.pendingCandidates && xs != []
    ensures var r := CandidateArrivals(s, id, xs);
      && r.conn == s.conn
      && r.books == s.books.(pendingCandidates := s.books.pendingCandidates[id := xs])
  {
    var b := s.books;
    var s1 := CandidateStep(s, id, xs[0]);
    assert Pending(b, id) + [xs[0]] == [xs[0]];
    assert s1.books == b.(pendingCandidates := b.pendingCandidates[id := [xs[0]]]);
    CandidateArrivalsQueued(s1, id, xs[1..]);
    assert Pending(s1.books, id) + xs[1..] == xs;
    assert s1.books.pendingCandidates[id := xs] == b.pendingCandidates[id := xs];
  }

  /** The queue discipline end to end: candidates that arrive before the answer are all
      added, in arrival order after those already waiting, as soon as the answer is
      applied, and the queue is left empty. */
  lemma CandidatesAppliedInOrder(s: Side, id: string, xs: seq<Candidate>, sdp: Description, env: Browser)
    requires s.conn.state == HaveLocalOffer && !CanApply(s.conn) && env.remoteOk
    ensures var r := AnswerStep(CandidateArrivals(s, id, xs), id, sdp, env);
      && r.conn.calls == s.conn.calls + [SetRemote(sdp)] + AddCalls(Pending(s.books, id) + xs)
      && Pending(r.books, id) == []
  {
    var q := CandidateArrivals(s, id, xs);
    if id in s.books.pendingCandidates {
      CandidateArrivalsQueued(s, id, xs);
    } else if xs != [] {
      CandidateArrivalsFirstQueued(s, id, xs);
    }
    assert Pending(q.books, id) == Pending(s.books, id) + xs;
    assert q.conn == s.conn;
  }

  // ------------------------------------------------------ queued answers

  /** onsignalingstatechange after the state changed to `st` (useWebRTC.ts:263-282):
      in have-remote-offer with answers queued, the oldest is taken off the queue and
      set; it is sent if that resolves. */
  function StateChangeStep(s: Side, id: string, st: SignalingState, env: Browser): Side {
    var c := s.conn.(state := st);
    var q := QueuedAnswers(s.books, id);
    if st == HaveRemoteOffer && |q| > 0 then
      var b1 := s.books.(pendingAnswers := s.books.pendingAnswers[id := q[1..]]);
      Side(if env.localOk then Send(b1, AnswerEnvelope(id, q[0])) else b1, LocalSet(c, q[0], env.localState))
    else Side(s.books, c)
  }

  /** Each change into have-remote-offer with a non-empty queue takes off and sets
      exactly the oldest queued answer; any other change touches no bookkeeping. */
  lemma StateChangeSpec(s: Side, id: string, st: SignalingState, env: Browser)
    ensures var r, q := StateChangeStep(s, id, st, env), QueuedAnswers(s.books, id);
      && r.conn.state == (if st == HaveRemoteOffer && |q| > 0 then env.localState else st)
      && (st == HaveRemoteOffer && |q| > 0 ==>
            && QueuedAnswers(r.books, id) == q[1..]
            && r.conn.calls == s.conn.calls + [SetLocal(q[0])]
            && r.books.outbox == s.books.outbox + (if env.localOk then [AnswerEnvelope(id, q[0])] else []))
      && (!(st == HaveRemoteOffer && |q| > 0) ==> r.books == s.books && r.conn.calls == s.conn.calls)
  {
  }

  function LocalCalls(ds: seq<Description>): (r: seq<Call>)
    ensures |r| == |ds|
    ensures forall i :: 0 <= i < |ds| ==> r[i] == SetLocal(ds[i])
  {
    if ds == [] then [] else [SetLocal(ds[0])] + LocalCalls(ds[1..])
  }

  /** Successive changes into have-remote-offer, one per environment in `envs`. */
  function Replays(s: Side, id: string, envs: seq<Browser>): Side
    decreases |envs|
  {
    if envs == [] then s else Replays(StateChangeStep(s, id, HaveRemoteOffer, envs[0]), id, envs[1..])
  }

  /** Queued answers come out first in, first out: when the queue is `taken + rest`,
      |taken| changes into have-remote-offer set exactly the answers of `taken`, in queue
      order, and leave `rest` queued. */
  lemma ReplaysSpec(s: Side, id: string, envs: seq<Browser>, taken: seq<Description>, rest: seq<Description>)
    requires QueuedAnswers(s.books, id) == taken + rest && |taken| == |envs|
    ensures var r := Replays(s, id, envs);
      && r.conn.calls == s.conn.calls + LocalCalls(taken)
      && QueuedAnswers(r.books, id) == rest
  {
    ReplaysQueue(s, id, envs, taken, rest);
    ReplaysCalls(s, id, envs, taken, rest);
  }

  lemma {:induction false} ReplaysQueue(s: Side, id: string, envs: seq<Browser>, taken: seq<Description>, rest: seq<Description>)
    requires QueuedAnswers(s.books, id) == taken + rest && |taken| == |envs|
    ensures QueuedAnswers(Replays(s, id, envs).books, id) == rest
    decreases |envs|
  {
    if envs == [] {
      assert taken == [] && taken + rest == rest;
    } else {
      var s1 := StateChangeStep(s, id, HaveRemoteOffer, envs[0]);
      ReplayOne(s, id, envs[0], taken, rest);
      ReplaysQueue(s1, id, envs[1..], taken[1..], rest);
    }
  }

  lemma {:induction false} ReplaysCalls(s: Side, id: string, envs: seq<Browser>, taken: seq<Description>, rest: seq<Description>)
    requires QueuedAnswers(s.books, id) == taken + rest && |taken| == |envs|
    ensures Replays(s, id, envs).conn.calls == s.conn.calls + LocalCalls(taken)
    decreases |envs|
  {
    if envs == [] {
      assert s.conn.calls + LocalCalls(taken) == s.conn.calls;
    } else {
      var s1 := StateChangeStep(s, id, HaveRemoteOffer, envs[0]);
      ReplayOne(s, id, envs[0], taken, rest);
      ReplaysCalls(s1, id, envs[1..], taken[1..], rest);
      var later := LocalCalls(taken[1..]);
      assert LocalCalls(taken) == [SetLocal(taken[0])] + later;
      assert (s.conn.calls + [SetLocal(taken[0])]) + later == s.conn.calls + ([SetLocal(taken[0])] + later);
    }
  }

  /** One change into have-remote-offer with a non-empty queue. */
  lemma ReplayOne(s: Side, id: string, env: Browser, taken: seq<Description>, rest: seq<Description>)
    requires QueuedAnswers(s.books, id) == taken + rest && taken != []
    ensures var r := StateChangeStep(s, id, HaveRemoteOffer, env);
      && QueuedAnswers(r.books, id) == taken[1..] + rest
      && r.conn.calls == s.conn.calls + [SetLocal(taken[0])]
  {
    assert (taken + rest)[1..] == taken[1..] + rest;
  }

  // ------------------------------------------------ onnegotiationneeded

  /** The synchronous start of onnegotiationneeded (useWebRTC.ts:308). */
  function NegotiationStart(b: Books, id: string): Books {
    b.(makingOffer := b.makingOffer[id := true])
  }

  /** The rest of onnegotiationneeded (useWebRTC.ts:309-316): create and set an offer,
      send it, and clear the making-offer flag in `finally`. */
  function NegotiationFinish(s: Side, id: string, env: Browser): Side {
    var b := s.books.(makingOffer := s.books.makingOffer[id := false]);
    match env.created
    case None => Side(b, s.conn)
    case Some(o) =>
      Side(if env.localOk then Send(b, OfferEnvelope(id, o)) else b, LocalSet(s.conn, o, env.localState))
  }

  /** Whatever the browser does, the flag is false once the handler finishes and at most
      one envelope, an offer to the peer, is sent. */
  lemma NegotiationFinishSpec(s: Side, id: string, env: Browser)
    ensures var r := NegotiationFinish(s, id, env);
      && Lookup(r.books.makingOffer, id, true) == false
      && (r.books.outbox == s.books.outbox ||
          (env.created.Some? && env.localOk && r.books.outbox == s.books.outbox + [OfferEnvelope(id, env.created.value)]))
      && r.books.participants == s.books.participants
      && r.books.negotiating == s.books.negotiating
  {
  }

  /** There is no in-flight guard: a second negotiationneeded while the first is
      running is not refused, both send an offer, and the flag already reads false while
      the second is still running. */
  lemma NegotiationUnguarded(s: Side, id: string, o1: Description, o2: Description, env1: Browser, env2: Browser)
    requires env1.created == Some(o1) && env1.localOk
    requires env2.created == Some(o2) && env2.localOk
    ensures var started := Side(NegotiationStart(NegotiationStart(s.books, id), id), s.conn);
      var first := NegotiationFinish(started, id, env1);
      var second := NegotiationFinish(first, id, env2);
      && Lookup(first.books.makingOffer, id, true) == false
      && second.books.outbox == s.books.outbox + [OfferEnvelope(id, o1), OfferEnvelope(id, o2)]
  {
  }

  // --------------------------------------------------------- presence

  /** participantJoined from a peer other than the current user (useWebRTC.ts:441-458),
      on the connection `createPeerConnection` has just built afresh. */
  function JoinedStep(b: Books, id: string, name: string, polite: bool, env: Browser, tracks: seq<nat>): Side {
    var b1 := b.(participants := AddPlaceholder(b.participants, id, name));
    var n := InitialConn(tracks);
    if polite && !Lookup(b.negotiating, id, false) then
      var b2 := b1.(negotiating := b1.negotiating[id := true]);
      match env.created
      case None => Side(Done(b2, id), n)
      case Some(o) =>
        Side(if env.localOk then Done(Send(b2, OfferEnvelope(id, o)), id) else Done(b2, id),
             LocalSet(n, o, env.localState))
    else Side(b1, n)
  }

  /** A join adds the placeholder only for a new id; an offer is sent exactly when this
      end is polite, no negotiation is flagged, and the browser creates and sets the
      offer; the flag is cleared again once the polite end has tried. */
  lemma JoinedSpec(b: Books, id: string, name: string, polite: bool, env: Browser, tracks: seq<nat>)
    ensures var r := JoinedStep(b, id, name, polite, env, tracks);
      var tries := polite && !Lookup(b.negotiating, id, false);
      && r.books.participants == AddPlaceholder(b.participants, id, name)
      && r.conn.senders == tracks && !r.conn.hasRemote && !r.conn.closed
      && (r.books.outbox != b.outbox <==> tries && env.created.Some? && env.localOk)
      && (r.books.outbox != b.outbox ==> r.books.outbox == b.outbox + [OfferEnvelope(id, env.created.value)])
      && (tries ==> r.books.negotiating == b.negotiating[id := false])
      && (!tries ==> r.books.negotiating == b.negotiating && r.conn == InitialConn(tracks))
      && r.books.pendingCandidates == b.pendingCandidates
      && r.books.pendingAnswers == b.pendingAnswers
  {
    if polite && !Lookup(b.negotiating, id, false) {
      JoinedOffers(b, id, name, env, tracks);
    }
  }

  /** The polite end's try on a join, written out: the flag is set and cleared again, and
      the offer is sent when it was created and set. */
  lemma JoinedOffers(b: Books, id: string, name: string, env: Browser, tracks: seq<nat>)
    requires !Lookup(b.negotiating, id, false)
    ensures var r := JoinedStep(b, id, name, true, env, tracks);
      var sent := env.created.Some? && env.localOk;
      && r.books == b.(participants := AddPlaceholder(b.participants, id, name),
                       negotiating := b.negotiating[id := false],
                       outbox := if sent then b.outbox + [OfferEnvelope(id, env.created.value)] else b.outbox)
      && r.conn == if env.created.Some? then LocalSet(InitialConn(tracks), env.created.value, env.localState)
                   else InitialConn(tracks)
  {
    var b2 := b.(participants := AddPlaceholder(b.participants, id, name), negotiating := b.negotiating[id := true]);
    assert b2.negotiating[id := false] == b.negotiating[id := false];
  }

  /** participantLeft (useWebRTC.ts:459-465): forget the peer everywhere except in the
      two pending buffers, and close its connection. */
  function LeftStep(s: Side, id: string): Side {
    var b := s.books;
    Side(b.(participants := Without(b.participants, id),
            negotiating := b.negotiating - {id},
            makingOffer := b.makingOffer - {id},
            ignoreOffer := b.ignoreOffer - {id}),
         Closing(s.conn))
  }

  /** After a leave the id is in no flag map and not listed, the connection is closed,
      nothing is sent, and the candidate and answer buffers are kept as they were. */
  lemma LeftSpec(s: Side, id: string)
    ensures var r := LeftStep(s, id);
      && id !in r.books.negotiating && id !in r.books.makingOffer && id !in r.books.ignoreOffer
      && id !in Ids(r.books.participants)
      && (forall k :: k in s.books.negotiating && k != id ==> k in r.books.negotiating)
      && r.books.pendingCandidates == s.books.pendingCandidates
      && r.books.pendingAnswers == s.books.pendingAnswers
      && r.books.outbox == s.books.outbox
      && r.conn.closed && r.conn.state == Closed && !CanApply(r.conn)
  {
    WithoutSpec(s.books.participants, id);
  }

  // -------------------------------------------------------------- dispatch

  /** `handleSignal` once the sender's connection exists (useWebRTC.ts:332-479), for a
      sender other than the current user. */
  function SignalStep(s: Side, userName: string, m: Message, env: Browser, tracks: seq<nat>): Side {
    if m.kind in {"offer", "answer", "candidate"} then NegotiationSignal(s, userName, m, env)
    else PresenceSignal(s, m, userName, env, tracks)
  }

  /** The offer, answer and candidate branches (useWebRTC.ts:351-440). */
  function NegotiationSignal(s: Side, userName: string, m: Message, env: Browser): Side {
    var id := m.senderId.GetOr("");
    var polite := IsPoliteWith(userName, m.senderName.GetOr(""));
    if m.kind == "offer" then (if m.sdp.Some? then OfferStep(s, id, polite, m.sdp.value, env) else s)
    else if m.kind == "answer" then (if m.sdp.Some? then AnswerStep(s, id, m.sdp.value, env) else s)
    else if m.kind == "candidate" then (if m.candidate.Some? then CandidateStep(s, id, m.candidate.value) else s)
    else s
  }

  /** The presence and toggle branches (useWebRTC.ts:441-474). */
  function PresenceSignal(s: Side, m: Message, userName: string, env: Browser, tracks: seq<nat>): Side {
    var id, name := m.senderId.GetOr(""), m.senderName.GetOr("");
    if m.kind == "participantJoined" then JoinedStep(s.books, id, name, IsPoliteWith(userName, name), env, tracks)
    else if m.kind == "participantLeft" then LeftStep(s, id)
    else Side(ToggleStep(s.books, m), s.conn)
  }

  /** The toggle branches (useWebRTC.ts:466-474); any other type changes nothing. */
  function ToggleStep(b: Books, m: Message): Books {
    var id := m.senderId.GetOr("");
    if m.kind == "toggleMute" then b.(participants := SetMuted(b.participants, id, m.isMuted))
    else if m.kind == "toggleVideo" then b.(participants := SetVideoOn(b.participants, id, m.isVideoOn))
    else b
  }

  lemma SameIdsUnique(ps: seq<Participant>, qs: seq<Participant>)
    requires Ids(ps) == Ids(qs) && UniqueIds(ps)
    ensures UniqueIds(qs)
  {
    forall i, j | 0 <= i < j < |qs| ensures qs[i].id != qs[j].id {
      assert Ids(qs)[i] == ps[i].id && Ids(qs)[j] == ps[j].id;
    }
  }

  /** Offers, answers and candidates leave the participant list alone. */
  lemma NegotiationKeepsParticipants(s: Side, id: string, polite: bool, d: Description, x: Candidate, env: Browser)
    ensures OfferStep(s, id, polite, d, env).books.participants == s.books.participants
    ensures AnswerStep(s, id, d, env).books.participants == s.books.participants
    ensures CandidateStep(s, id, x).books.participants == s.books.participants
  {
    var b, c := s.books, s.conn;
    if OfferAccepted(s, id, polite, env) {
      var b1 := b.(ignoreOffer := b.ignoreOffer[id := false], negotiating := b.negotiating[id := true]);
      var b3 := b1.(pendingCandidates := b1.pendingCandidates[id := []]);
      var c0 := if OfferCollision(b, c, id) then Rolled(c, env.rollbackOk) else c;
      var c2 := Settled(RemoteSet(c0, d, env.remoteOk, env.remoteState), env.polls);
      var c3 := CandidatesAdded(c2, Pending(b1, id)).(state := env.drainState);
      assert OfferStep(s, id, polite, d, env) == AnswerOffer(b3, c3, id, env);
      AnswerOfferSpec(b3, c3, id, env);
    }
  }

  /** No signal ever lists a participant id twice. */
  lemma SignalKeepsUniqueIds(s: Side, userName: string, m: Message, env: Browser, tracks: seq<nat>)
    requires UniqueIds(s.books.participants)
    ensures UniqueIds(SignalStep(s, userName, m, env, tracks).books.participants)
  {
    var id, name := m.senderId.GetOr(""), m.senderName.GetOr("");
    if m.kind in {"offer", "answer", "candidate"} {
      NegotiationKeepsParticipants(s, id, IsPoliteWith(userName, name),
        if m.sdp.Some? then m.sdp.value else Description(OfferSdp, 0),
        m.candidate.GetOr(0), env);
      assert NegotiationSignal(s, userName, m, env).books.participants == s.books.participants;
    } else {
      PresenceKeepsUniqueIds(s, m, userName, env, tracks);
    }
  }

  lemma PresenceKeepsUniqueIds(s: Side, m: Message, userName: string, env: Browser, tracks: seq<nat>)
    requires UniqueIds(s.books.participants)
    ensures UniqueIds(PresenceSignal(s, m, userName, env, tracks).books.participants)
  {
    var ps, id, name := s.books.participants, m.senderId.GetOr(""), m.senderName.GetOr("");
    if m.kind == "participantJoined" {
      JoinedKeepsUniqueIds(s.books, id, name, IsPoliteWith(userName, name), env, tracks);
    } else if m.kind == "participantLeft" {
      WithoutKeepsUnique(ps, id);
      assert LeftStep(s, id).books.participants == Without(ps, id);
    } else if m.kind == "toggleMute" {
      TogglesSpec(ps, id, m.isMuted);
      SameIdsUnique(ps, SetMuted(ps, id, m.isMuted));
    } else if m.kind == "toggleVideo" {
      TogglesSpec(ps, id, m.isVideoOn);
      SameIdsUnique(ps, SetVideoOn(ps, id, m.isVideoOn));
    }
  }

  lemma JoinedKeepsUniqueIds(b: Books, id: string, name: string, polite: bool, env: Browser, tracks: seq<nat>)
    requires UniqueIds(b.participants)
    ensures UniqueIds(JoinedStep(b, id, name, polite, env, tracks).books.participants)
  {
    JoinedSpec(b, id, name, polite, env, tracks);
    AddPlaceholderSpec(b.participants, id, name);
  }
}

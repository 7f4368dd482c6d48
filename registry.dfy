/** The participant list of the WebRTC hook: the `setParticipants` updaters that the
    presence, inbound-track and toggle events apply (frontend/app/hooks/useWebRTC.ts). */
module Registry {
  import opened Common

  /** A remote media stream, by identity only (the registry references it, owns nothing). */
  type StreamRef = nat

  datatype Participant = Participant(
    id: string,
    name: string,
    isMuted: bool,
    isVideoOn: bool,
    stream: Option<StreamRef>)

  function Ids(ps: seq<Participant>): (ids: seq<string>)
    ensures |ids| == |ps|
    ensures forall i :: 0 <= i < |ps| ==> ids[i] == ps[i].id
  {
    if ps == [] then [] else [ps[0].id] + Ids(ps[1..])
  }

  predicate UniqueIds(ps: seq<Participant>) {
    forall i, j :: 0 <= i < j < |ps| ==> ps[i].id != ps[j].id
  }

  /** The entry a freshly announced peer gets before any media arrives. */
  function Placeholder(id: string, name: string): Participant {
    Participant(id, name, false, true, None)
  }

  /** The per-entry edits that the `map` updaters apply. */
  datatype Edit = SetStream(s: StreamRef) | MuteTo(m: Option<bool>) | VideoTo(v: Option<bool>)

  function Apply(e: Edit, p: Participant): Participant {
    match e
    case SetStream(s) => p.(stream := Some(s))
    case MuteTo(m) => p.(isMuted := m.GetOr(p.isMuted))
    case VideoTo(v) => p.(isVideoOn := v.GetOr(p.isVideoOn))
  }

  /** `prev.map(p => p.id === id ? edited(p) : p)`. */
  function UpdateWhere(ps: seq<Participant>, id: string, e: Edit): seq<Participant>
  {
    if ps == [] then []
    else [if ps[0].id == id then Apply(e, ps[0]) else ps[0]] + UpdateWhere(ps[1..], id, e)
  }

  /** `prev.filter(p => p.id !== id)`. */
  function Without(ps: seq<Participant>, id: string): seq<Participant>
  {
    if ps == [] then []
    else if ps[0].id == id then Without(ps[1..], id)
    else [ps[0]] + Without(ps[1..], id)
  }

  /** participantJoined: append a placeholder unless the id is already listed. */
  function AddPlaceholder(ps: seq<Participant>, id: string, name: string): seq<Participant>
  {
    if id in Ids(ps) then ps else ps + [Placeholder(id, name)]
  }

  /** ontrack: fill in the stream of an existing entry, or append a new entry that
      already carries it. */
  function OnTrack(ps: seq<Participant>, id: string, name: string, s: StreamRef): seq<Participant>
  {
    if id in Ids(ps) then UpdateWhere(ps, id, SetStream(s))
    else ps + [Participant(id, name, false, true, Some(s))]
  }

  /** toggleMute received: `isMuted: signal.isMuted ?? p.isMuted`. */
  function SetMuted(ps: seq<Participant>, id: string, v: Option<bool>): seq<Participant>
  {
    UpdateWhere(ps, id, MuteTo(v))
  }

  /** toggleVideo received: `isVideoOn: signal.isVideoOn ?? p.isVideoOn`. */
  function SetVideoOn(ps: seq<Participant>, id: string, v: Option<bool>): seq<Participant>
  {
    UpdateWhere(ps, id, VideoTo(v))
  }

  // ---------------------------------------------------------------- lemmas

  /** The `map` updater rewrites exactly the entries with the id and keeps the order. */
  lemma {:induction false} UpdateWhereAt(ps: seq<Participant>, id: string, e: Edit)
    ensures |UpdateWhere(ps, id, e)| == |ps|
    ensures Ids(UpdateWhere(ps, id, e)) == Ids(ps)
    ensures forall i :: 0 <= i < |ps| ==>
      UpdateWhere(ps, id, e)[i] == if ps[i].id == id then Apply(e, ps[i]) else ps[i]
  {
    if ps != [] {
      UpdateWhereAt(ps[1..], id, e);
    }
  }

  lemma {:induction false} WithoutSpec(ps: seq<Participant>, id: string)
    ensures id !in Ids(Without(ps, id))
    ensures forall x :: x in Without(ps, id) <==> x in ps && x.id != id
    ensures |Without(ps, id)| <= |ps|
    ensures id !in Ids(ps) ==> Without(ps, id) == ps
  {
    if ps != [] {
      WithoutSpec(ps[1..], id);
      var rest := Without(ps[1..], id);
      assert ps == [ps[0]] + ps[1..];
      assert Ids(ps) == [ps[0].id] + Ids(ps[1..]);
      if ps[0].id != id {
        assert Ids([ps[0]] + rest) == [ps[0].id] + Ids(rest);
      }
    }
  }

  lemma {:induction false} WithoutKeepsUnique(ps: seq<Participant>, id: string)
    requires UniqueIds(ps)
    ensures UniqueIds(Without(ps, id))
  {
    if ps != [] {
      WithoutKeepsUnique(ps[1..], id);
      WithoutSpec(ps[1..], id);
      var r := Without(ps[1..], id);
      if ps[0].id != id {
        forall j | 0 <= j < |r| ensures r[j].id != ps[0].id {
          assert r[j] in ps[1..];
        }
      }
    }
  }

  /** participantJoined never duplicates an id, and adds exactly one entry for a new id,
      a placeholder with no stream, unmuted and with video on. */
  lemma AddPlaceholderSpec(ps: seq<Participant>, id: string, name: string)
    requires UniqueIds(ps)
    ensures var r := AddPlaceholder(ps, id, name);
      && UniqueIds(r)
      && id in Ids(r)
      && (id in Ids(ps) ==> r == ps)
      && (id !in Ids(ps) ==> r == ps + [Participant(id, name, false, true, None)])
  {
    var r := AddPlaceholder(ps, id, name);
    assert Ids(r)[|r| - 1] == r[|r| - 1].id;
    if id !in Ids(ps) {
      forall i, j | 0 <= i < j < |r| ensures r[i].id != r[j].id {
        if j == |ps| { assert Ids(ps)[i] == ps[i].id; }
      }
    } else {
      var k :| 0 <= k < |ps| && Ids(ps)[k] == id;
      assert Ids(r)[k] == id;
    }
  }

  /** ontrack adds an entry only when the id is absent; otherwise it changes only
      the stream of that id's entry and leaves every other entry and field alone. */
  lemma OnTrackSpec(ps: seq<Participant>, id: string, name: string, s: StreamRef)
    requires UniqueIds(ps)
    ensures var r := OnTrack(ps, id, name, s);
      && UniqueIds(r)
      && (id !in Ids(ps) ==> r == ps + [Participant(id, name, false, true, Some(s))])
      && (id in Ids(ps) ==> |r| == |ps| && forall i :: 0 <= i < |ps| ==>
            r[i] == if ps[i].id == id then ps[i].(stream := Some(s)) else ps[i])
  {
    UpdateWhereAt(ps, id, SetStream(s));
    if id !in Ids(ps) {
      var r := ps + [Participant(id, name, false, true, Some(s))];
      forall i, j | 0 <= i < j < |r| ensures r[i].id != r[j].id {
        if j == |ps| { assert Ids(ps)[i] == ps[i].id; }
      }
    }
  }

  /** An incoming toggle changes only the muted (video) flag of the matching entry, and
      keeps the flag when the envelope carries none. */
  lemma TogglesSpec(ps: seq<Participant>, id: string, v: Option<bool>)
    ensures var m, w := SetMuted(ps, id, v), SetVideoOn(ps, id, v);
      && |m| == |ps| && |w| == |ps|
      && Ids(m) == Ids(ps) && Ids(w) == Ids(ps)
      && forall i :: 0 <= i < |ps| ==>
           && m[i] == (if ps[i].id == id then ps[i].(isMuted := v.GetOr(ps[i].isMuted)) else ps[i])
           && w[i] == (if ps[i].id == id then ps[i].(isVideoOn := v.GetOr(ps[i].isVideoOn)) else ps[i])
  {
    UpdateWhereAt(ps, id, MuteTo(v));
    UpdateWhereAt(ps, id, VideoTo(v));
  }

  /** The two racing sources for one new peer, presence and inbound media, produce the
      same list whichever arrives first. */
  lemma JoinAndTrackCommute(ps: seq<Participant>, id: string, name: string, s: StreamRef)
    requires id !in Ids(ps)
    ensures OnTrack(AddPlaceholder(ps, id, name), id, name, s)
         == AddPlaceholder(OnTrack(ps, id, name, s), id, name)
  {
    var joined := ps + [Placeholder(id, name)];
    var tracked := ps + [Participant(id, name, false, true, Some(s))];
    assert Ids(joined)[|ps|] == id;
    assert Ids(tracked)[|ps|] == id;
    UpdateAbsentAppend(ps, Placeholder(id, name), SetStream(s));
  }

  /** Updating where only the appended entry matches updates only that entry. */
  lemma {:induction false} UpdateAbsentAppend(ps: seq<Participant>, p: Participant, e: Edit)
    requires p.id !in Ids(ps)
    ensures UpdateWhere(ps + [p], p.id, e) == ps + [Apply(e, p)]
  {
    if ps == [] {
      assert UpdateWhere([p], p.id, e) == [Apply(e, p)] + UpdateWhere([], p.id, e);
    } else {
      assert Ids(ps)[0] == ps[0].id;
      assert Ids(ps[1..]) == Ids(ps)[1..];
      UpdateAbsentAppend(ps[1..], p, e);
      assert (ps + [p])[1..] == ps[1..] + [p];
    }
  }
}

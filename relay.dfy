/** The signalling relay of the backend (backend/smartcretary/signaling/manager.py and
    routes.py; backend/smartcretary/main.py holds a copy of both): the registered sockets,
    the room of each user, the participants of each room, and the routing of every frame
    a client sends. Each function here is one atomic step on the whole relay state; the
    class in module RelayServer performs them in place. */
module Relay {
  import opened Common
  import opened Messages

  /** A room participant: `Participant(id=user_id, name=user_name)`. */
  datatype Member = Member(id: string, name: string)

  /** One frame written to the socket of user `to`. */
  datatype Delivery = Delivery(to: string, msg: Message)

  /** A `notify_participant_left` task scheduled with `create_task`, not yet run. */
  datatype Notice = LeftNotice(roomId: string, userId: string)

  /** The relay state:
      active    — `active_connections`: user id to whether its socket is CONNECTED;
      userRooms — `user_rooms`: user id to room id;
      rooms     — `rooms`: room id to its participants, in insertion order;
      outbox    — every frame sent so far, in order;
      notices   — the scheduled leave notifications, in scheduling order. */
  datatype Hub = Hub(
    active: map<string, bool>,
    userRooms: map<string, string>,
    rooms: map<string, seq<Member>>,
    outbox: seq<Delivery>,
    notices: seq<Notice>)

  const EmptyHub: Hub := Hub(map[], map[], map[], [], [])

  function MemberIds(ms: seq<Member>): (ids: seq<string>)
    ensures |ids| == |ms|
    ensures forall i :: 0 <= i < |ms| ==> ids[i] == ms[i].id
  {
    if ms == [] then [] else [ms[0].id] + MemberIds(ms[1..])
  }

  predicate Distinct(ids: seq<string>) {
    forall i, j :: 0 <= i < j < |ids| ==> ids[i] != ids[j]
  }

  /** `del participants[user_id]`. */
  function Remove(ms: seq<Member>, u: string): (r: seq<Member>)
    ensures forall x :: x in r <==> x in ms && x.id != u
  {
    if ms == [] then []
    else if ms[0].id == u then Remove(ms[1..], u)
    else [ms[0]] + Remove(ms[1..], u)
  }

  /** The participants of a room, none for a room that does not exist. */
  function RoomOf(h: Hub, r: string): seq<Member> {
    if r in h.rooms then h.rooms[r] else []
  }

  /** The notice `notify_participant_joined` sends: it names the newcomer. */
  function JoinNotice(r: string, u: string, name: string): (m: Message)
    ensures m.kind == "participantJoined" && m.senderName == Some(name)
    ensures m.senderId == Some(u) && m.roomId == Some(r) && m.targetId == None
  {
    Blank("participantJoined").(senderId := Some(u), senderName := Some(name), roomId := Some(r))
  }

  /** The notice `notify_participant_left` sends: it carries no `senderName`. */
  function LeaveNotice(r: string, u: string): (m: Message)
    ensures m.kind == "participantLeft" && m.senderName == None
    ensures m.senderId == Some(u) && m.roomId == Some(r) && m.targetId == None
  {
    Blank("participantLeft").(senderId := Some(u), roomId := Some(r))
  }

  // ---------------------------------------------------------------- ConnectionManager

  /** `connect` after a successful `accept`: the socket, CONNECTED, is registered. */
  function Connect(h: Hub, u: string): Hub {
    h.(active := h.active[u := true])
  }

  /** `disconnect(user_id)`. */
  function Disconnect(h: Hub, u: string): Hub {
    var h1 := h.(active := h.active - {u});
    if u !in h1.userRooms then h1
    else
      var r := h1.userRooms[u];
      var h2 := h1.(userRooms := h1.userRooms - {u});
      if r in h2.rooms && u in MemberIds(h2.rooms[r]) then
        h2.(rooms := h2.rooms[r := Remove(h2.rooms[r], u)],
            notices := h2.notices + [LeftNotice(r, u)])
      else h2
  }

  /** `send_personal_message(message, user_id)`. A send that raises is handled like a
      socket that is not CONNECTED (both disconnect the user), so one flag covers both. */
  function SendPersonal(h: Hub, m: Message, u: string): Hub {
    if u !in h.active then h
    else if h.active[u] then h.(outbox := h.outbox + [Delivery(u, m)])
    else Disconnect(h, u)
  }

  /** The `for` loop of `broadcast_to_room`, over a snapshot of the participant ids. */
  function SendAll(h: Hub, m: Message, ids: seq<string>, exclude: Option<string>): Hub
    decreases |ids|
  {
    if ids == [] then h
    else
      var h1 := if Some(ids[0]) == exclude then h else SendPersonal(h, m, ids[0]);
      SendAll(h1, m, ids[1..], exclude)
  }

  /** `broadcast_to_room(message, room_id, exclude_user)`. */
  function Broadcast(h: Hub, m: Message, r: string, exclude: Option<string>): Hub {
    if r in h.rooms then SendAll(h, m, MemberIds(h.rooms[r]), exclude) else h
  }

  /** The first scheduled `notify_participant_left` task runs. */
  function RunNotice(h: Hub): Hub
    requires h.notices != []
  {
    var n := h.notices[0];
    Broadcast(h.(notices := h.notices[1..]), LeaveNotice(n.roomId, n.userId), n.roomId, Some(n.userId))
  }

  /** The frames a broadcast writes, given the socket flags at its start: one to each
      listed id, in order, that is not excluded and is registered and CONNECTED. */
  function Sends(active: map<string, bool>, ids: seq<string>, exclude: Option<string>,
                 m: Message): seq<Delivery>
  {
    if ids == [] then []
    else
      (if Some(ids[0]) != exclude && ids[0] in active && active[ids[0]]
       then [Delivery(ids[0], m)] else [])
      + Sends(active, ids[1..], exclude, m)
  }

  // ---------------------------------------------------------------- websocket_endpoint

  /** The one-by-one sends of `for participant_info in current_participants`. */
  function SendEach(h: Hub, ms: seq<Message>, u: string): Hub
    decreases |ms|
  {
    if ms == [] then h else SendEach(SendPersonal(h, ms[0], u), ms[1..], u)
  }

  /** `current_participants`: one join notice per participant other than `u`. */
  function Introductions(r: string, ms: seq<Member>, u: string): seq<Message> {
    if ms == [] then []
    else (if ms[0].id != u then [JoinNotice(r, ms[0].id, ms[0].name)] else [])
         + Introductions(r, ms[1..], u)
  }

  /** The endpoint after `connect`: create the room if absent, add the newcomer, record
      its room, announce it to the others and introduce the others to it. */
  function Admit(h: Hub, r: string, u: string, name: string): Hub {
    var h2 := Broadcast(Enter(h, r, u, name), JoinNotice(r, u, name), r, Some(u));
    SendEach(h2, Introductions(r, RoomOf(h2, r), u), u)
  }

  /** `rooms[room_id] = Room(...)` if absent, `participants[user_id] = participant`,
      `user_rooms[user_id] = room_id`. */
  function Enter(h: Hub, r: string, u: string, name: string): Hub {
    h.(rooms := h.rooms[r := RoomOf(h, r) + [Member(u, name)]], userRooms := h.userRooms[u := r])
  }

  /** `{**message, "senderId": user_id, "senderName": user_name, "roomId": room_id}`. */
  function Forwarded(m: Message, u: string, name: string, r: string): (f: Message)
    ensures f.senderId == Some(u) && f.senderName == Some(name) && f.roomId == Some(r)
    ensures f.kind == m.kind && f.targetId == m.targetId && f.sdp == m.sdp
    ensures f.candidate == m.candidate && f.isMuted == m.isMuted && f.isVideoOn == m.isVideoOn
  {
    m.(senderId := Some(u), senderName := Some(name), roomId := Some(r))
  }

  /** `{**message, "id": uuid4(), "userId": user_id, "user": user_name,
      "timestamp": message.get("timestamp")}`; `None` stands for both an absent and a
      null timestamp. */
  function ChatOut(m: Message, u: string, name: string, freshId: string): (c: Message)
    ensures c.id == Some(freshId) && c.userId == Some(u) && c.user == Some(name)
    ensures c.kind == m.kind && c.content == m.content && c.timestamp == m.timestamp
    ensures c.roomId == m.roomId && c.isTranscription == m.isTranscription
  {
    m.(id := Some(freshId), userId := Some(u), user := Some(name))
  }

  predicate IsSignal(kind: string) {
    kind == "offer" || kind == "answer" || kind == "candidate"
  }

  predicate IsToggle(kind: string) {
    kind == "toggleMute" || kind == "toggleVideo"
  }

  /** One turn of the receive loop for user `u` (name `name`) in room `r`. The target
      must be truthy: present and not empty. */
  function Receive(h: Hub, r: string, u: string, name: string, m: Message, freshId: string): Hub {
    if m.kind == "join" then h
    else if m.kind == "chatMessage" then Broadcast(h, ChatOut(m, u, name, freshId), r, None)
    else if IsSignal(m.kind) then
      if m.targetId.Some? && m.targetId.value != "" then
        SendPersonal(h, Forwarded(m, u, name, r), m.targetId.value)
      else h
    else if IsToggle(m.kind) then Broadcast(h, Forwarded(m, u, name, r), r, Some(u))
    else h
  }

  /** What `receive_text` yields: a frame, with the uuid the relay would give a chat
      message, or a failure (`WebSocketDisconnect`, bad JSON) that ends the loop. */
  datatype Frame = Text(m: Message, freshId: string) | Broken

  /** The `while True` receive loop. */
  function Serve(h: Hub, r: string, u: string, name: string, frames: seq<Frame>): Hub
    decreases |frames|
  {
    if frames == [] || frames[0].Broken? then h
    else Serve(Receive(h, r, u, name, frames[0].m, frames[0].freshId), r, u, name, frames[1..])
  }

  /** A whole `websocket_endpoint` run for the fresh id `u`: `accepted` says whether
      `websocket.accept()` succeeded; the `finally` clause always disconnects. */
  function Session(h: Hub, r: string, u: string, name: string, accepted: bool,
                   frames: seq<Frame>): Hub {
    var h1 := if accepted then Serve(Admit(Connect(h, u), r, u, name), r, u, name, frames) else h;
    Disconnect(h1, u)
  }

  // ---------------------------------------------------------------- HTTP endpoints

  datatype RoomSummary = RoomSummary(id: string, participants: nat, names: seq<string>)

  function Names(ms: seq<Member>): (ns: seq<string>)
    ensures |ns| == |ms|
    ensures forall i :: 0 <= i < |ms| ==> ns[i] == ms[i].name
  {
    if ms == [] then [] else [ms[0].name] + Names(ms[1..])
  }

  /** One entry of `get_rooms`. */
  function Summary(id: string, ms: seq<Member>): (s: RoomSummary)
    ensures s.id == id && s.participants == |s.names| && s.names == Names(ms)
  {
    RoomSummary(id, |ms|, Names(ms))
  }

  /** The JSON body of a `get_room` reply. `ErrorAndCode` is the Python tuple
      `({"error": e}, code)`, which the framework serialises as the two-element array
      `[{"error": e}, code]`. */
  datatype RoomBody =
    | RoomDetail(id: string, members: seq<Member>)
    | RoomError(error: string)
    | ErrorAndCode(error: string, code: nat)

  /** An HTTP reply: its status code and its body. */
  datatype RoomReply = RoomReply(status: nat, body: RoomBody)

  const RoomNotFoundText: string := "Room not found"

  /** `get_room(room_id)` as written. A handler's return value is sent with the default
      status 200, so the `404` of the tuple ends up inside the body. */
  function GetRoomAsWritten(rooms: map<string, seq<Member>>, r: string): RoomReply {
    if r !in rooms then RoomReply(200, ErrorAndCode(RoomNotFoundText, 404))
    else RoomReply(200, RoomDetail(r, rooms[r]))
  }

  /** `get_room(room_id)` with the evident intent: 404 and the error object for an
      unknown room, 200 and the room's id and participants otherwise. */
  function GetRoom(rooms: map<string, seq<Member>>, r: string): (reply: RoomReply)
    ensures reply.status == 404 <==> r !in rooms
    ensures reply.status == 200 <==> r in rooms
    ensures r !in rooms ==> reply.body == RoomError(RoomNotFoundText)
    ensures r in rooms ==> reply.body.RoomDetail? && reply.body.id == r && reply.body.members == rooms[r]
  {
    if r !in rooms then RoomReply(404, RoomError(RoomNotFoundText))
    else RoomReply(200, RoomDetail(r, rooms[r]))
  }

  /** As written, a request for an unknown room succeeds with status 200 and a body that
      is an array, not the error object; for a known room the two replies agree. */
  lemma GetRoomUnknownAnswersOk(rooms: map<string, seq<Member>>, r: string)
    ensures r in rooms ==> GetRoomAsWritten(rooms, r) == GetRoom(rooms, r)
    ensures r !in rooms ==>
      && GetRoomAsWritten(rooms, r).status == 200
      && GetRoomAsWritten(rooms, r).body == ErrorAndCode(RoomNotFoundText, 404)
      && GetRoomAsWritten(rooms, r) != GetRoom(rooms, r)
  {
  }

  // ---------------------------------------------------------------- invariant

  /** Participant ids are unique within a room (they are dict keys) and every
      participant's `user_rooms` entry names the room that lists it. */
  predicate Consistent(h: Hub) {
    forall r | r in h.rooms ::
      && Distinct(MemberIds(h.rooms[r]))
      && forall v | v in MemberIds(h.rooms[r]) :: v in h.userRooms && h.userRooms[v] == r
  }

  /** User `u` is admitted to room `r` and its socket is CONNECTED. */
  predicate Seated(h: Hub, u: string, r: string) {
    && u in h.userRooms && h.userRooms[u] == r
    && r in h.rooms && u in MemberIds(h.rooms[r])
    && u in h.active && h.active[u]
  }

  // ---------------------------------------------------------------- lemmas

  lemma DistinctCons(a: string, xs: seq<string>)
    ensures Distinct([a] + xs) <==> a !in xs && Distinct(xs)
  {
    var ys := [a] + xs;
    if Distinct(ys) {
      forall k | 0 <= k < |xs| ensures xs[k] != a {
        assert ys[0] == a && ys[k + 1] == xs[k];
      }
      forall i, j | 0 <= i < j < |xs| ensures xs[i] != xs[j] {
        assert ys[i + 1] == xs[i] && ys[j + 1] == xs[j];
      }
    }
  }

  lemma {:induction false} RemoveIdsIn(ms: seq<Member>, u: string)
    ensures forall v :: v in MemberIds(Remove(ms, u)) <==> v in MemberIds(ms) && v != u
  {
    if ms != [] {
      RemoveIdsIn(ms[1..], u);
      assert MemberIds(ms) == [ms[0].id] + MemberIds(ms[1..]);
      if ms[0].id != u {
        var rest := Remove(ms[1..], u);
        assert MemberIds([ms[0]] + rest) == [ms[0].id] + MemberIds(rest);
      }
    }
  }

  lemma {:induction false} RemoveKeepsDistinct(ms: seq<Member>, u: string)
    requires Distinct(MemberIds(ms))
    ensures Distinct(MemberIds(Remove(ms, u)))
  {
    if ms != [] {
      var tail := MemberIds(ms[1..]);
      assert MemberIds(ms) == [ms[0].id] + tail;
      DistinctCons(ms[0].id, tail);
      RemoveKeepsDistinct(ms[1..], u);
      if ms[0].id != u {
        var rest := Remove(ms[1..], u);
        RemoveIdsIn(ms[1..], u);
        assert MemberIds([ms[0]] + rest) == [ms[0].id] + MemberIds(rest);
        DistinctCons(ms[0].id, MemberIds(rest));
      }
    }
  }

  /** Removing `u` drops exactly its id and keeps the ids distinct. */
  lemma RemoveIds(ms: seq<Member>, u: string)
    ensures forall v :: v in MemberIds(Remove(ms, u)) <==> v in MemberIds(ms) && v != u
    ensures Distinct(MemberIds(ms)) ==> Distinct(MemberIds(Remove(ms, u)))
  {
    RemoveIdsIn(ms, u);
    if Distinct(MemberIds(ms)) {
      RemoveKeepsDistinct(ms, u);
    }
  }

  /** `disconnect` forgets the socket and the room of `u`, removes `u` from that room's
      participants, sends nothing, and schedules one leave notification exactly when `u`
      was listed there. */
  lemma DisconnectSpec(h: Hub, u: string)
    ensures var d := Disconnect(h, u);
      var listed := u in h.userRooms && h.userRooms[u] in h.rooms
                    && u in MemberIds(h.rooms[h.userRooms[u]]);
      && d.active == h.active - {u}
      && d.userRooms == h.userRooms - {u}
      && d.outbox == h.outbox
      && d.rooms.Keys == h.rooms.Keys
      && (forall r | r in h.rooms && !(listed && r == h.userRooms[u]) :: d.rooms[r] == h.rooms[r])
      && (listed ==> u !in MemberIds(d.rooms[h.userRooms[u]])
                     && forall x :: x in d.rooms[h.userRooms[u]] <==> x in h.rooms[h.userRooms[u]] && x.id != u)
      && d.notices == h.notices + if listed then [LeftNotice(h.userRooms[u], u)] else []
  {
    if u in h.userRooms && h.userRooms[u] in h.rooms {
      RemoveIds(h.rooms[h.userRooms[u]], u);
    }
  }

  /** A second `disconnect` of the same user changes nothing and schedules nothing. */
  lemma DisconnectIdempotent(h: Hub, u: string)
    ensures Disconnect(Disconnect(h, u), u) == Disconnect(h, u)
  {
    var d := Disconnect(h, u);
    assert u !in d.userRooms;
    assert d.active - {u} == d.active;
  }

  lemma DisconnectConsistent(h: Hub, u: string)
    requires Consistent(h)
    ensures Consistent(Disconnect(h, u))
    ensures forall r | r in Disconnect(h, u).rooms :: u !in MemberIds(Disconnect(h, u).rooms[r])
  {
    if u in h.userRooms {
      var r := h.userRooms[u];
      if r in h.rooms && u in MemberIds(h.rooms[r]) {
        RemoveIds(h.rooms[r], u);
        ListedDisconnectConsistent(h, u, r);
      }
    }
  }

  /** The case where `u` is listed in its room: only that room's list changes. */
  lemma ListedDisconnectConsistent(h: Hub, u: string, r: string)
    requires Consistent(h) && u in h.userRooms && h.userRooms[u] == r && r in h.rooms
    requires forall v :: v in MemberIds(Remove(h.rooms[r], u)) <==> v in MemberIds(h.rooms[r]) && v != u
    requires Distinct(MemberIds(Remove(h.rooms[r], u)))
    ensures var d := h.(rooms := h.rooms[r := Remove(h.rooms[r], u)], userRooms := h.userRooms - {u});
      && Consistent(d)
      && forall r' | r' in d.rooms :: u !in MemberIds(d.rooms[r'])
  {
    var d := h.(rooms := h.rooms[r := Remove(h.rooms[r], u)], userRooms := h.userRooms - {u});
    forall r' | r' in d.rooms
      ensures Distinct(MemberIds(d.rooms[r']))
      ensures forall v | v in MemberIds(d.rooms[r']) :: v in d.userRooms && d.userRooms[v] == r'
      ensures u !in MemberIds(d.rooms[r'])
    {
      if r' != r {
        assert d.rooms[r'] == h.rooms[r'];
        assert forall v | v in MemberIds(h.rooms[r']) :: h.userRooms[v] == r';
      }
    }
  }

  /** `send_personal_message` writes one frame exactly when the socket is registered and
      CONNECTED; a registered socket that is not is disconnected; other sockets keep
      their entries. */
  lemma SendPersonalSpec(h: Hub, m: Message, u: string)
    ensures var s := SendPersonal(h, m, u);
      && s.outbox == h.outbox + (if u in h.active && h.active[u] then [Delivery(u, m)] else [])
      && (u in s.active <==> u in h.active && h.active[u])
      && (forall v | v != u :: v in s.active <==> v in h.active)
      && (forall v | v in s.active :: s.active[v] == h.active[v])
  {
  }

  /** The frames of a broadcast go to exactly the listed ids that are not excluded and
      whose socket is CONNECTED, each carrying the broadcast message. */
  lemma {:induction false} SendsSpec(active: map<string, bool>, ids: seq<string>,
                                     exclude: Option<string>, m: Message)
    ensures forall d :: d in Sends(active, ids, exclude, m) <==>
      d.msg == m && d.to in ids && Some(d.to) != exclude && d.to in active && active[d.to]
  {
    if ids != [] {
      SendsSpec(active, ids[1..], exclude, m);
    }
  }

  lemma {:induction false} SendsAgree(a1: map<string, bool>, a2: map<string, bool>,
                                      ids: seq<string>, exclude: Option<string>, m: Message)
    requires forall v | v in ids :: (v in a1 <==> v in a2) && (v in a1 ==> a1[v] == a2[v])
    ensures Sends(a1, ids, exclude, m) == Sends(a2, ids, exclude, m)
  {
    if ids != [] {
      SendsAgree(a1, a2, ids[1..], exclude, m);
    }
  }

  /** One turn of the broadcast loop. */
  lemma SendStep(h: Hub, m: Message, v: string, exclude: Option<string>)
    ensures var h1 := if Some(v) == exclude then h else SendPersonal(h, m, v);
      && h1.outbox == h.outbox
           + (if Some(v) != exclude && v in h.active && h.active[v] then [Delivery(v, m)] else [])
      && (forall w :: w in h1.active <==>
            w in h.active && !(w == v && Some(v) != exclude && !h.active[v]))
      && (forall w | w in h1.active :: h1.active[w] == h.active[w])
  {
    SendPersonalSpec(h, m, v);
  }

  /** The broadcast loop over distinct ids disconnects exactly the listed, not excluded
      ids whose socket is not CONNECTED, and leaves every other socket flag alone. */
  lemma {:induction false} SendAllActive(h: Hub, m: Message, ids: seq<string>, exclude: Option<string>)
    requires Distinct(ids)
    ensures var s := SendAll(h, m, ids, exclude);
      && (forall v :: v in s.active <==>
            v in h.active && !(v in ids && Some(v) != exclude && !h.active[v]))
      && (forall v | v in s.active :: s.active[v] == h.active[v])
    decreases |ids|
  {
    if ids != [] {
      var h1 := if Some(ids[0]) == exclude then h else SendPersonal(h, m, ids[0]);
      SendStep(h, m, ids[0], exclude);
      SendAllActive(h1, m, ids[1..], exclude);
    }
  }

  /** The frame one turn of the broadcast loop writes. */
  function StepSend(h: Hub, m: Message, v: string, exclude: Option<string>): seq<Delivery> {
    if Some(v) != exclude && v in h.active && h.active[v] then [Delivery(v, m)] else []
  }

  /** One turn for id `v` does not change what the loop writes to the ids after it. */
  lemma StepKeepsSends(h: Hub, m: Message, v: string, exclude: Option<string>, rest: seq<string>)
    requires v !in rest
    ensures var h1 := if Some(v) == exclude then h else SendPersonal(h, m, v);
      && h1.outbox == h.outbox + StepSend(h, m, v, exclude)
      && Sends(h1.active, rest, exclude, m) == Sends(h.active, rest, exclude, m)
  {
    var h1 := if Some(v) == exclude then h else SendPersonal(h, m, v);
    SendStep(h, m, v, exclude);
    SendsAgree(h1.active, h.active, rest, exclude, m);
  }

  /** No id occurs twice, stated one position at a time. */
  predicate NoRepeats(ids: seq<string>)
    decreases |ids|
  {
    ids == [] || (ids[0] !in ids[1..] && NoRepeats(ids[1..]))
  }

  lemma {:induction false} DistinctNoRepeats(ids: seq<string>)
    requires Distinct(ids)
    ensures NoRepeats(ids)
    decreases |ids|
  {
    if ids != [] {
      assert ids[0] !in ids[1..] by {
        forall k | 0 <= k < |ids[1..]| ensures ids[1..][k] != ids[0] {
          assert ids[1..][k] == ids[k + 1];
        }
      }
      assert Distinct(ids[1..]) by {
        forall i, j | 0 <= i < j < |ids[1..]| ensures ids[1..][i] != ids[1..][j] {
          assert ids[1..][i] == ids[i + 1] && ids[1..][j] == ids[j + 1];
        }
      }
      DistinctNoRepeats(ids[1..]);
    }
  }

  /** The broadcast loop over distinct ids writes exactly the frames `Sends` lists for
      the socket flags it starts with. */
  lemma {:induction false} SendAllSpec(h: Hub, m: Message, ids: seq<string>, exclude: Option<string>)
    requires NoRepeats(ids)
    ensures SendAll(h, m, ids, exclude).outbox == h.outbox + Sends(h.active, ids, exclude, m)
    decreases |ids|
  {
    if ids != [] {
      var h1 := if Some(ids[0]) == exclude then h else SendPersonal(h, m, ids[0]);
      StepKeepsSends(h, m, ids[0], exclude, ids[1..]);
      SendAllSpec(h1, m, ids[1..], exclude);
      assert SendAll(h, m, ids, exclude) == SendAll(h1, m, ids[1..], exclude);
      assert Sends(h.active, ids, exclude, m)
          == StepSend(h, m, ids[0], exclude) + Sends(h.active, ids[1..], exclude, m);
    }
  }

  /** `broadcast_to_room` does nothing for an unknown room; otherwise it writes the
      message to every participant but the excluded one whose socket is CONNECTED. */
  lemma BroadcastSpec(h: Hub, m: Message, r: string, exclude: Option<string>)
    requires Consistent(h)
    ensures r !in h.rooms ==> Broadcast(h, m, r, exclude) == h
    ensures r in h.rooms ==>
      Broadcast(h, m, r, exclude).outbox == h.outbox + Sends(h.active, MemberIds(h.rooms[r]), exclude, m)
    ensures forall d | d in Broadcast(h, m, r, exclude).outbox[|h.outbox|..] ::
      d.msg == m && Some(d.to) != exclude && d.to in MemberIds(RoomOf(h, r))
  {
    if r in h.rooms {
      DistinctNoRepeats(MemberIds(h.rooms[r]));
      SendAllSpec(h, m, MemberIds(h.rooms[r]), exclude);
      SendsSpec(h.active, MemberIds(h.rooms[r]), exclude, m);
    }
  }

  /** Every step of the broadcast loop keeps the invariant. */
  lemma SendPersonalConsistent(h: Hub, m: Message, u: string)
    requires Consistent(h)
    ensures Consistent(SendPersonal(h, m, u))
  {
    if u in h.active && !h.active[u] {
      DisconnectConsistent(h, u);
    }
  }

  lemma {:induction false} SendAllConsistent(h: Hub, m: Message, ids: seq<string>, exclude: Option<string>)
    requires Consistent(h)
    ensures Consistent(SendAll(h, m, ids, exclude))
    decreases |ids|
  {
    if ids != [] {
      var h1 := if Some(ids[0]) == exclude then h else SendPersonal(h, m, ids[0]);
      SendPersonalConsistent(h, m, ids[0]);
      SendAllConsistent(h1, m, ids[1..], exclude);
    }
  }

  lemma BroadcastConsistent(h: Hub, m: Message, r: string, exclude: Option<string>)
    requires Consistent(h)
    ensures Consistent(Broadcast(h, m, r, exclude))
  {
    if r in h.rooms {
      SendAllConsistent(h, m, MemberIds(h.rooms[r]), exclude);
    }
  }

  /** A disconnect of someone else leaves a seated user seated. */
  lemma DisconnectKeepsSeated(h: Hub, v: string, u: string, r: string)
    requires Seated(h, u, r) && v != u
    ensures Seated(Disconnect(h, v), u, r)
  {
    if v in h.userRooms && h.userRooms[v] in h.rooms {
      RemoveIds(h.rooms[h.userRooms[v]], v);
    }
  }

  /** A seated user stays seated through any single send: its own socket is CONNECTED,
      so a send to it is delivered. */
  lemma SendPersonalKeepsSeated(h: Hub, m: Message, v: string, u: string, r: string)
    requires Seated(h, u, r)
    ensures Seated(SendPersonal(h, m, v), u, r)
  {
    if v != u && v in h.active && !h.active[v] {
      DisconnectKeepsSeated(h, v, u, r);
    }
  }

  lemma {:induction false} SendAllKeepsSeated(h: Hub, m: Message, ids: seq<string>,
                                              exclude: Option<string>, u: string, r: string)
    requires Seated(h, u, r)
    ensures Seated(SendAll(h, m, ids, exclude), u, r)
    decreases |ids|
  {
    if ids != [] {
      var h1 := if Some(ids[0]) == exclude then h else SendPersonal(h, m, ids[0]);
      SendPersonalKeepsSeated(h, m, ids[0], u, r);
      SendAllKeepsSeated(h1, m, ids[1..], exclude, u, r);
    }
  }

  lemma BroadcastKeepsSeated(h: Hub, m: Message, r0: string, exclude: Option<string>, u: string, r: string)
    requires Seated(h, u, r)
    ensures Seated(Broadcast(h, m, r0, exclude), u, r)
  {
    if r0 in h.rooms {
      SendAllKeepsSeated(h, m, MemberIds(h.rooms[r0]), exclude, u, r);
    }
  }

  /** The frames `SendEach` writes to a CONNECTED user: each message once, in order. */
  function ToUser(u: string, ms: seq<Message>): (ds: seq<Delivery>)
    ensures |ds| == |ms|
    ensures forall i :: 0 <= i < |ms| ==> ds[i] == Delivery(u, ms[i])
  {
    if ms == [] then [] else [Delivery(u, ms[0])] + ToUser(u, ms[1..])
  }

  /** Sends to a CONNECTED user only append to the outbox. */
  lemma {:induction false} SendEachSpec(h: Hub, ms: seq<Message>, u: string)
    requires u in h.active && h.active[u]
    ensures var e := SendEach(h, ms, u);
      && e.outbox == h.outbox + ToUser(u, ms)
      && e.active == h.active && e.userRooms == h.userRooms
      && e.rooms == h.rooms && e.notices == h.notices
    decreases |ms|
  {
    if ms != [] {
      var h1 := SendPersonal(h, ms[0], u);
      SendEachSpec(h1, ms[1..], u);
      assert h1.outbox + ToUser(u, ms[1..]) == h.outbox + ToUser(u, ms);
    }
  }

  /** One join notice per room member, in order. */
  function JoinNotices(r: string, ms: seq<Member>): (ns: seq<Message>)
    ensures |ns| == |ms|
    ensures forall i :: 0 <= i < |ms| ==> ns[i] == JoinNotice(r, ms[i].id, ms[i].name)
  {
    if ms == [] then [] else [JoinNotice(r, ms[0].id, ms[0].name)] + JoinNotices(r, ms[1..])
  }

  /** `current_participants` is one join notice for each member other than the newcomer. */
  lemma {:induction false} IntroductionsSpec(r: string, ms: seq<Member>, u: string)
    ensures Introductions(r, ms, u) == JoinNotices(r, Remove(ms, u))
  {
    if ms != [] {
      IntroductionsSpec(r, ms[1..], u);
      if ms[0].id != u {
        assert JoinNotices(r, [ms[0]] + Remove(ms[1..], u))
            == [JoinNotice(r, ms[0].id, ms[0].name)] + JoinNotices(r, Remove(ms[1..], u));
      }
    }
  }

  lemma MemberIdsAppend(ms: seq<Member>, x: Member)
    ensures MemberIds(ms + [x]) == MemberIds(ms) + [x.id]
  {
  }

  /** Entering a room keeps the invariant for a user not yet in any room, and seats it. */
  lemma EnterSpec(h: Hub, r: string, u: string, name: string)
    requires Consistent(h) && u !in h.userRooms && u in h.active && h.active[u]
    ensures Consistent(Enter(h, r, u, name)) && Seated(Enter(h, r, u, name), u, r)
  {
    var ms := RoomOf(h, r);
    MemberIdsAppend(ms, Member(u, name));
    assert u !in MemberIds(ms);
  }

  lemma {:induction false} SendsSkipExcluded(active: map<string, bool>, ids: seq<string>, v: string, m: Message)
    ensures Sends(active, ids + [v], Some(v), m) == Sends(active, ids, Some(v), m)
  {
    if ids != [] {
      SendsSkipExcluded(active, ids[1..], v, m);
      assert (ids + [v])[1..] == ids[1..] + [v];
    }
  }

  /** The endpoint, once the socket is accepted: the newcomer is seated in its room
      (created if absent); every CONNECTED member already there gets one join notice
      about it; then it gets one join notice for each other member still listed. */
  lemma AdmitSpec(h: Hub, r: string, u: string, name: string)
    requires Consistent(h) && u !in h.userRooms && u in h.active && h.active[u]
    ensures var h2 := Broadcast(Enter(h, r, u, name), JoinNotice(r, u, name), r, Some(u));
      var a := Admit(h, r, u, name);
      && Consistent(a) && Seated(a, u, r)
      && a.outbox == h.outbox
           + Sends(h.active, MemberIds(RoomOf(h, r)), Some(u), JoinNotice(r, u, name))
           + ToUser(u, JoinNotices(r, Remove(RoomOf(h2, r), u)))
  {
    var h1 := Enter(h, r, u, name);
    var h2 := Broadcast(h1, JoinNotice(r, u, name), r, Some(u));
    EnterSpec(h, r, u, name);
    MemberIdsAppend(RoomOf(h, r), Member(u, name));
    SendsSkipExcluded(h.active, MemberIds(RoomOf(h, r)), u, JoinNotice(r, u, name));
    BroadcastSpec(h1, JoinNotice(r, u, name), r, Some(u));
    BroadcastConsistent(h1, JoinNotice(r, u, name), r, Some(u));
    BroadcastKeepsSeated(h1, JoinNotice(r, u, name), r, Some(u), u, r);
    IntroductionsSpec(r, RoomOf(h2, r), u);
    SendEachSpec(h2, Introductions(r, RoomOf(h2, r), u), u);
  }

  /** The routing table of the receive loop: `join` and unknown types send nothing;
      chat goes to the whole room, sender included; an offer, answer or candidate goes
      to its truthy target only, and nowhere without one; a toggle goes to the room but
      not to the sender. */
  lemma ReceiveRoutes(h: Hub, r: string, u: string, name: string, m: Message, freshId: string)
    requires Consistent(h)
    ensures var s := Receive(h, r, u, name, m, freshId);
      var known := m.kind == "chatMessage" || IsSignal(m.kind) || IsToggle(m.kind);
      var target := m.targetId.Some? && m.targetId.value != "";
      && (m.kind == "join" || !known ==> s == h)
      && (m.kind == "chatMessage" ==>
            s.outbox == h.outbox + Sends(h.active, MemberIds(RoomOf(h, r)), None, ChatOut(m, u, name, freshId)))
      && (IsSignal(m.kind) && !target ==> s == h)
      && (IsSignal(m.kind) && target ==>
            s.outbox == h.outbox
              + if m.targetId.value in h.active && h.active[m.targetId.value]
                then [Delivery(m.targetId.value, Forwarded(m, u, name, r))] else [])
      && (IsToggle(m.kind) ==>
            s.outbox == h.outbox + Sends(h.active, MemberIds(RoomOf(h, r)), Some(u), Forwarded(m, u, name, r)))
  {
    if m.kind == "chatMessage" {
      BroadcastSpec(h, ChatOut(m, u, name, freshId), r, None);
    } else if IsSignal(m.kind) {
      if m.targetId.Some? && m.targetId.value != "" {
        SendPersonalSpec(h, Forwarded(m, u, name, r), m.targetId.value);
      }
    } else if IsToggle(m.kind) {
      BroadcastSpec(h, Forwarded(m, u, name, r), r, Some(u));
    }
  }

  /** A chat message comes back to its seated sender; a toggle never does. */
  lemma EchoRules(h: Hub, r: string, u: string, name: string, m: Message, freshId: string)
    requires Consistent(h) && Seated(h, u, r)
    ensures var s := Receive(h, r, u, name, m, freshId);
      m.kind == "chatMessage" ==>
        |h.outbox| <= |s.outbox| && Delivery(u, ChatOut(m, u, name, freshId)) in s.outbox[|h.outbox|..]
    ensures var s := Receive(h, r, u, name, m, freshId);
      IsToggle(m.kind) ==>
        |h.outbox| <= |s.outbox| && forall d | d in s.outbox[|h.outbox|..] :: d.to != u
  {
    ReceiveRoutes(h, r, u, name, m, freshId);
    if m.kind == "chatMessage" {
      var ids := MemberIds(h.rooms[r]);
      var c := ChatOut(m, u, name, freshId);
      SendsSpec(h.active, ids, None, c);
      assert Receive(h, r, u, name, m, freshId).outbox[|h.outbox|..] == Sends(h.active, ids, None, c);
    } else if IsToggle(m.kind) {
      var ids := MemberIds(h.rooms[r]);
      var f := Forwarded(m, u, name, r);
      SendsSpec(h.active, ids, Some(u), f);
      assert Receive(h, r, u, name, m, freshId).outbox[|h.outbox|..] == Sends(h.active, ids, Some(u), f);
    }
  }

  lemma ReceiveConsistent(h: Hub, r: string, u: string, name: string, m: Message, freshId: string)
    requires Consistent(h)
    ensures Consistent(Receive(h, r, u, name, m, freshId))
  {
    if m.kind == "chatMessage" {
      BroadcastConsistent(h, ChatOut(m, u, name, freshId), r, None);
    } else if IsSignal(m.kind) {
      if m.targetId.Some? && m.targetId.value != "" {
        SendPersonalConsistent(h, Forwarded(m, u, name, r), m.targetId.value);
      }
    } else if IsToggle(m.kind) {
      BroadcastConsistent(h, Forwarded(m, u, name, r), r, Some(u));
    }
  }

  lemma {:induction false} ServeConsistent(h: Hub, r: string, u: string, name: string, frames: seq<Frame>)
    requires Consistent(h)
    ensures Consistent(Serve(h, r, u, name, frames))
    decreases |frames|
  {
    if frames != [] && frames[0].Text? {
      ReceiveConsistent(h, r, u, name, frames[0].m, frames[0].freshId);
      ServeConsistent(Receive(h, r, u, name, frames[0].m, frames[0].freshId), r, u, name, frames[1..]);
    }
  }

  /** However the receive loop ends, the `finally` clause leaves no trace of the user:
      no socket, no room entry, no participant record; and if the socket was never
      accepted, nothing changed at all. */
  lemma SessionSpec(h: Hub, r: string, u: string, name: string, accepted: bool, frames: seq<Frame>)
    requires Consistent(h) && u !in h.userRooms && u !in h.active
    ensures var s := Session(h, r, u, name, accepted, frames);
      && Consistent(s)
      && u !in s.active && u !in s.userRooms
      && (forall room | room in s.rooms :: u !in MemberIds(s.rooms[room]))
      && (!accepted ==> s == h)
  {
    if accepted {
      var served := Serve(Admit(Connect(h, u), r, u, name), r, u, name, frames);
      ServedConsistent(h, r, u, name, frames);
      DisconnectConsistent(served, u);
    } else {
      assert h.active - {u} == h.active;
      DisconnectConsistent(h, u);
    }
  }

  lemma ServedConsistent(h: Hub, r: string, u: string, name: string, frames: seq<Frame>)
    requires Consistent(h) && u !in h.userRooms
    ensures Consistent(Serve(Admit(Connect(h, u), r, u, name), r, u, name, frames))
  {
    AdmitSpec(Connect(h, u), r, u, name);
    ServeConsistent(Admit(Connect(h, u), r, u, name), r, u, name, frames);
  }

  /** A scheduled leave notification, when it runs, goes to every CONNECTED participant of
      the room except the user who left, and carries no name. */
  lemma RunNoticeSpec(h: Hub)
    requires Consistent(h) && h.notices != []
    ensures var n := h.notices[0]; var s := RunNotice(h);
      && Consistent(s)
      && s.outbox == h.outbox
           + Sends(h.active, MemberIds(RoomOf(h, n.roomId)), Some(n.userId), LeaveNotice(n.roomId, n.userId))
  {
    var n := h.notices[0];
    var h1 := h.(notices := h.notices[1..]);
    BroadcastSpec(h1, LeaveNotice(n.roomId, n.userId), n.roomId, Some(n.userId));
    BroadcastConsistent(h1, LeaveNotice(n.roomId, n.userId), n.roomId, Some(n.userId));
  }
}

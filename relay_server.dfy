/** The relay as the backend runs it: `ConnectionManager` together with the global
    `rooms` dict (backend/smartcretary/signaling/manager.py and routes.py, duplicated in
    backend/smartcretary/main.py). Every method updates the fields in place and is proved
    to perform the matching step of module Relay. */
module RelayServer {
  import opened Common
  import opened Messages
  import opened Relay

  class Server {
    var active: map<string, bool>
    var userRooms: map<string, string>
    var rooms: map<string, seq<Member>>
    var outbox: seq<Delivery>
    var notices: seq<Notice>

    function View(): Hub
      reads this
    {
      Hub(active, userRooms, rooms, outbox, notices)
    }

    constructor ()
      ensures View() == EmptyHub
    {
      active, userRooms, rooms, outbox, notices := map[], map[], map[], [], [];
    }

    /** The socket of `u` changes state on its own (the peer went away, the transport
        failed); the relay notices only on its next send. */
    method SetClientState(u: string, connected: bool)
      modifies this
      ensures u in old(active) ==> View() == old(View()).(active := old(active)[u := connected])
      ensures u !in old(active) ==> View() == old(View())
    {
      if u in active {
        active := active[u := connected];
      }
    }

    /** `connect`: registers the socket only once `accept` has succeeded; otherwise the
        exception propagates (`ok` is false) and nothing is registered. */
    method Connect(u: string, accepted: bool) returns (ok: bool)
      modifies this
      ensures ok == accepted
      ensures ok ==> View() == Relay.Connect(old(View()), u)
      ensures !ok ==> View() == old(View())
    {
      ok := accepted;
      if ok {
        active := active[u := true];
      }
    }

    method Disconnect(u: string)
      modifies this
      ensures View() == Relay.Disconnect(old(View()), u)
    {
      if u in active {
        active := active - {u};
      }
      if u in userRooms {
        var r := userRooms[u];
        userRooms := userRooms - {u};
        if r in rooms && u in MemberIds(rooms[r]) {
          rooms := rooms[r := Remove(rooms[r], u)];
          notices := notices + [LeftNotice(r, u)];
        }
      }
    }

    method SendPersonalMessage(m: Message, u: string)
      modifies this
      ensures View() == SendPersonal(old(View()), m, u)
    {
      if u in active {
        if active[u] {
          outbox := outbox + [Delivery(u, m)];
        } else {
          Disconnect(u);
        }
      }
    }

    method BroadcastToRoom(m: Message, r: string, exclude: Option<string>)
      modifies this
      ensures View() == Broadcast(old(View()), m, r, exclude)
    {
      if r in rooms {
        var ids := MemberIds(rooms[r]);
        var i := 0;
        while i < |ids|
          invariant 0 <= i <= |ids|
          invariant SendAll(View(), m, ids[i..], exclude) == SendAll(old(View()), m, ids, exclude)
        {
          assert ids[i..][1..] == ids[i + 1..];
          if Some(ids[i]) != exclude {
            SendPersonalMessage(m, ids[i]);
          }
          i := i + 1;
        }
      }
    }

    method NotifyParticipantJoined(r: string, u: string, name: string)
      modifies this
      ensures View() == Broadcast(old(View()), JoinNotice(r, u, name), r, Some(u))
    {
      BroadcastToRoom(JoinNotice(r, u, name), r, Some(u));
    }

    method NotifyParticipantLeft(r: string, u: string)
      modifies this
      ensures View() == Broadcast(old(View()), LeaveNotice(r, u), r, Some(u))
    {
      BroadcastToRoom(LeaveNotice(r, u), r, Some(u));
    }

    /** The event loop runs the oldest task that `disconnect` scheduled. */
    method RunScheduledNotice()
      requires notices != []
      modifies this
      ensures View() == RunNotice(old(View()))
    {
      var n := notices[0];
      notices := notices[1..];
      NotifyParticipantLeft(n.roomId, n.userId);
    }

    /** The endpoint between `connect` and the receive loop. */
    method Join(r: string, u: string, name: string)
      modifies this
      ensures View() == Admit(old(View()), r, u, name)
    {
      rooms := rooms[r := RoomOf(View(), r) + [Member(u, name)]];
      userRooms := userRooms[u := r];
      assert View() == Enter(old(View()), r, u, name);
      NotifyParticipantJoined(r, u, name);
      var current := CurrentParticipants(r, u);
      SendEachTo(current, u);
    }

    /** The list `current_participants` the endpoint builds for the newcomer `u`. */
    method CurrentParticipants(r: string, u: string) returns (current: seq<Message>)
      ensures current == Introductions(r, RoomOf(View(), r), u)
    {
      var ms := RoomOf(View(), r);
      current := [];
      var i := 0;
      while i < |ms|
        invariant 0 <= i <= |ms|
        invariant current + Introductions(r, ms[i..], u) == Introductions(r, ms, u)
      {
        assert ms[i..][1..] == ms[i + 1..];
        if ms[i].id != u {
          current := current + [JoinNotice(r, ms[i].id, ms[i].name)];
        }
        i := i + 1;
      }
    }

    /** `for participant_info in current_participants: send_personal_message(...)`. */
    method SendEachTo(current: seq<Message>, u: string)
      modifies this
      ensures View() == SendEach(old(View()), current, u)
    {
      var j := 0;
      while j < |current|
        invariant 0 <= j <= |current|
        invariant SendEach(View(), current[j..], u) == SendEach(old(View()), current, u)
      {
        assert current[j..][1..] == current[j + 1..];
        SendPersonalMessage(current[j], u);
        j := j + 1;
      }
    }

    /** One frame of the receive loop. */
    method Handle(r: string, u: string, name: string, m: Message, freshId: string)
      modifies this
      ensures View() == Receive(old(View()), r, u, name, m, freshId)
    {
      if m.kind == "join" {
      } else if m.kind == "chatMessage" {
        BroadcastToRoom(ChatOut(m, u, name, freshId), r, None);
      } else if IsSignal(m.kind) {
        if m.targetId.Some? && m.targetId.value != "" {
          SendPersonalMessage(Forwarded(m, u, name, r), m.targetId.value);
        }
      } else if IsToggle(m.kind) {
        BroadcastToRoom(Forwarded(m, u, name, r), r, Some(u));
      }
    }

    /** `while True`: handle frames until the socket reports a failure. */
    method ReceiveLoop(r: string, u: string, name: string, frames: seq<Frame>)
      modifies this
      ensures View() == Serve(old(View()), r, u, name, frames)
    {
      var i := 0;
      while i < |frames| && frames[i].Text?
        invariant 0 <= i <= |frames|
        invariant Serve(View(), r, u, name, frames[i..]) == Serve(old(View()), r, u, name, frames)
      {
        assert frames[i..][1..] == frames[i + 1..];
        Handle(r, u, name, frames[i].m, frames[i].freshId);
        i := i + 1;
      }
    }

    /** `websocket_endpoint` for the fresh user id `u`, with `finally: disconnect`. */
    method Endpoint(r: string, name: string, u: string, accepted: bool, frames: seq<Frame>)
      modifies this
      ensures View() == Session(old(View()), r, u, name, accepted, frames)
    {
      var ok := Connect(u, accepted);
      if ok {
        Join(r, u, name);
        ReceiveLoop(r, u, name, frames);
      }
      Disconnect(u);
    }

    /** `get_rooms`: one summary per room. The dict's iteration order is not modelled. */
    method GetRooms() returns (list: seq<RoomSummary>)
      ensures |list| == |rooms|
      ensures forall k | 0 <= k < |list| :: list[k].id in rooms && list[k] == Summary(list[k].id, rooms[list[k].id])
      ensures forall r | r in rooms :: exists k :: 0 <= k < |list| && list[k].id == r
    {
      list := [];
      var todo := rooms.Keys;
      while todo != {}
        invariant todo <= rooms.Keys
        invariant |list| + |todo| == |rooms|
        invariant forall k | 0 <= k < |list| :: list[k].id in rooms - todo
        invariant forall k | 0 <= k < |list| :: list[k] == Summary(list[k].id, rooms[list[k].id])
        invariant forall r | r in rooms && r !in todo :: exists k :: 0 <= k < |list| && list[k].id == r
        decreases |todo|
      {
        var r :| r in todo;
        ghost var prev := list;
        list := list + [Summary(r, rooms[r])];
        todo := todo - {r};
        assert list[|prev|].id == r;
        forall r' | r' in rooms && r' !in todo ensures exists k :: 0 <= k < |list| && list[k].id == r' {
          if r' != r {
            var k :| 0 <= k < |prev| && prev[k].id == r';
            assert list[k].id == r';
          }
        }
      }
    }
  }
}

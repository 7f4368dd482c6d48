/** The meeting page (frontend/app/components/meeting-room.tsx): who is host, which remote
    participant is selected, which tile is the main video and which the picture in
    picture (PiP), where a dragged PiP lands, and how chat is received and sent. */
module MeetingRoom {
  import opened Common
  import opened Messages
  import opened Registry
  import Socket

  // ---------------------------------------------------------------- host

  function Names(ps: seq<Participant>): (ns: seq<string>)
    ensures |ns| == |ps|
    ensures forall i :: 0 <= i < |ps| ==> ns[i] == ps[i].name
  {
    if ps == [] then [] else [ps[0].name] + Names(ps[1..])
  }

  /** The first element of the sorted list: the smallest name. */
  function MinName(names: seq<string>): string
    requires names != []
    decreases |names|
  {
    if |names| == 1 then names[0]
    else
      var rest := MinName(names[1..]);
      if StrLess(rest, names[0]) then rest else names[0]
  }

  /** `[userName, ...participants.map(p => p.name)].sort()[0]`. */
  function HostName(userName: string, ps: seq<Participant>): string {
    MinName([userName] + Names(ps))
  }

  predicate IsHost(userName: string, ps: seq<Participant>) {
    userName == HostName(userName, ps)
  }

  /** The smallest name is one of the names and no name is smaller. */
  lemma {:induction false} MinNameSpec(names: seq<string>)
    requires names != []
    ensures MinName(names) in names
    ensures forall n | n in names :: StrLessEq(MinName(names), n)
    decreases |names|
  {
    if |names| > 1 {
      var rest := MinName(names[1..]);
      MinNameSpec(names[1..]);
      StrLessTrichotomy(rest, names[0]);
      forall n | n in names ensures StrLessEq(MinName(names), n) {
        if n != names[0] {
          assert n in names[1..];
          if StrLessEq(names[0], rest) && rest != n && names[0] != rest {
            StrLessTransitive(names[0], rest, n);
          }
        }
      }
    }
  }

  /** The local user is host exactly when no participant's name sorts before its own. */
  lemma IsHostIff(userName: string, ps: seq<Participant>)
    ensures IsHost(userName, ps) <==> forall i | 0 <= i < |ps| :: StrLessEq(userName, ps[i].name)
  {
    var all := [userName] + Names(ps);
    MinNameSpec(all);
    var h := MinName(all);
    if forall i | 0 <= i < |ps| :: StrLessEq(userName, ps[i].name) {
      if h != userName {
        var k :| 0 <= k < |all| && all[k] == h;
        assert StrLessEq(userName, h) && StrLessEq(h, userName) by {
          assert all[k] == ps[k - 1].name;
        }
        StrLessAsymmetric(userName, h);
      }
    } else {
      var i :| 0 <= i < |ps| && !StrLessEq(userName, ps[i].name);
      assert ps[i].name in all by { assert all[i + 1] == ps[i].name; }
    }
  }

  /** Two users with different names who list each other cannot both consider
      themselves host. */
  lemma HostUnique(a: string, psA: seq<Participant>, b: string, psB: seq<Participant>)
    requires a != b
    requires exists i :: 0 <= i < |psA| && psA[i].name == b
    requires exists j :: 0 <= j < |psB| && psB[j].name == a
    ensures !(IsHost(a, psA) && IsHost(b, psB))
  {
    IsHostIff(a, psA);
    IsHostIff(b, psB);
    StrLessAsymmetric(a, b);
  }

  // ---------------------------------------------------------------- selection

  /** JavaScript truthiness of a nullable string. */
  predicate Truthy(o: Option<string>) {
    o.Some? && o.value != ""
  }

  /** The effect at meeting-room.tsx:198-206: select the first participant when nothing
      is selected, and replace a selection whose participant has left by the first
      participant (`participants[0]?.id || null`). Both tests read the same value. */
  function Reconcile(ps: seq<Participant>, sel: Option<string>): (r: Option<string>)
    ensures !Truthy(sel) && ps != [] ==> r == Some(ps[0].id)
    ensures Truthy(sel) && sel.value in Ids(ps) ==> r == sel
    ensures Truthy(sel) && sel.value !in Ids(ps) && ps != [] && ps[0].id != "" ==> r == Some(ps[0].id)
    ensures Truthy(sel) && sel.value !in Ids(ps) && (ps == [] || ps[0].id == "") ==> r == None
    ensures ps == [] ==> !Truthy(r)
  {
    if !Truthy(sel) && ps != [] then Some(ps[0].id)
    else if Truthy(sel) && sel.value !in Ids(ps) then
      (if ps != [] && ps[0].id != "" then Some(ps[0].id) else None)
    else sel
  }

  /** With non-empty ids (the relay hands out uuids), a reconciled selection names a
      listed participant whenever there is one, and a second run of the effect keeps it. */
  lemma ReconcileSettles(ps: seq<Participant>, sel: Option<string>)
    requires forall i | 0 <= i < |ps| :: ps[i].id != ""
    ensures ps != [] ==> Truthy(Reconcile(ps, sel)) && Reconcile(ps, sel).value in Ids(ps)
    ensures Reconcile(ps, Reconcile(ps, sel)) == Reconcile(ps, sel)
  {
    if ps != [] {
      assert Ids(ps)[0] == ps[0].id;
    }
  }

  // ---------------------------------------------------------------- main and PiP tiles

  /** An entry of `allParticipants`. */
  datatype Tile = Tile(id: string, name: string, isMuted: bool, isVideoOn: bool,
                       stream: Option<StreamRef>, isLocal: bool)

  const LocalId: string := "local"

  function RemoteTiles(ps: seq<Participant>): (ts: seq<Tile>)
    ensures |ts| == |ps|
    ensures forall i :: 0 <= i < |ps| ==>
      ts[i] == Tile(ps[i].id, ps[i].name, ps[i].isMuted, ps[i].isVideoOn, ps[i].stream, false)
  {
    if ps == [] then []
    else [Tile(ps[0].id, ps[0].name, ps[0].isMuted, ps[0].isVideoOn, ps[0].stream, false)]
         + RemoteTiles(ps[1..])
  }

  /** `allParticipants`: the local tile first, then one tile per participant. */
  function AllTiles(userName: string, isMuted: bool, isVideoOn: bool, local: Option<StreamRef>,
                    ps: seq<Participant>): (ts: seq<Tile>)
    ensures |ts| == |ps| + 1
    ensures ts[0] == Tile(LocalId, userName, isMuted, isVideoOn, local, true)
    ensures forall i :: 0 < i < |ts| ==> ts[i].id == ps[i - 1].id && !ts[i].isLocal
  {
    [Tile(LocalId, userName, isMuted, isVideoOn, local, true)] + RemoteTiles(ps)
  }

  /** `findIndex(p => p.id === selectedParticipantId)`: -1 when nothing matches (a null
      selection matches no id). */
  function FindIndex(ts: seq<Tile>, sel: Option<string>): (k: int)
    ensures -1 <= k < |ts|
    ensures k >= 0 ==> sel.Some? && ts[k].id == sel.value
    ensures k >= 0 ==> forall j | 0 <= j < k :: ts[j].id != sel.value
    ensures k == -1 <==> sel.None? || forall j | 0 <= j < |ts| :: ts[j].id != sel.value
    decreases |ts|
  {
    if ts == [] || sel.None? then -1
    else if ts[0].id == sel.value then 0
    else
      var k := FindIndex(ts[1..], sel);
      if k == -1 then -1 else k + 1
  }

  /** `mainIdx` as written. */
  function MainIndex(isMainVideoLocal: bool, ts: seq<Tile>, sel: Option<string>): int {
    if isMainVideoLocal then 0 else FindIndex(ts, sel)
  }

  /** `pipIdx`. */
  function PipIndex(isMainVideoLocal: bool, ts: seq<Tile>, sel: Option<string>): int {
    if isMainVideoLocal then FindIndex(ts, sel) else 0
  }

  /** Swapping the main video swaps the two indices. */
  lemma IndicesSwap(b: bool, ts: seq<Tile>, sel: Option<string>)
    ensures MainIndex(b, ts, sel) == PipIndex(!b, ts, sel)
    ensures PipIndex(b, ts, sel) == MainIndex(!b, ts, sel)
    ensures b ==> MainIndex(b, ts, sel) == 0
  {
  }

  /** The main video as written, `allParticipants[mainIdx]`: JavaScript yields
      `undefined` (here `None`) for index -1, and the render then reads a property of it. */
  function MainTileAsWritten(isMainVideoLocal: bool, ts: seq<Tile>, sel: Option<string>): Option<Tile> {
    var k := MainIndex(isMainVideoLocal, ts, sel);
    if 0 <= k < |ts| then Some(ts[k]) else None
  }

  /** When the selected participant leaves while a remote video is the main one, the
      main index is -1 and there is no main tile to render. */
  lemma MainTileMissingAfterLeave()
    ensures var alice := Participant("alice-id", "alice", false, true, None);
      var ts := AllTiles("bob", false, true, None, Without([alice], "alice-id"));
      && MainIndex(false, ts, Some("alice-id")) == -1
      && MainTileAsWritten(false, ts, Some("alice-id")) == None
  {
    var alice := Participant("alice-id", "alice", false, true, None);
    assert Without([alice], "alice-id") == [];
    var ts := AllTiles("bob", false, true, None, []);
    assert ts[0].id == LocalId;
    assert LocalId != "alice-id";
  }

  /** The main index with the evident intent restored: the local tile when the selected
      participant is not listed. */
  function MainIndexOrLocal(isMainVideoLocal: bool, ts: seq<Tile>, sel: Option<string>): (k: int)
    requires ts != []
    ensures 0 <= k < |ts|
    ensures MainIndex(isMainVideoLocal, ts, sel) >= 0 ==> k == MainIndex(isMainVideoLocal, ts, sel)
    ensures MainIndex(isMainVideoLocal, ts, sel) < 0 ==> k == 0
  {
    var k := MainIndex(isMainVideoLocal, ts, sel);
    if k < 0 then 0 else k
  }

  /** The main tile: the selected participant's when the main video is remote and that
      participant is listed, otherwise the local tile; there always is one. */
  function MainTile(isMainVideoLocal: bool, ts: seq<Tile>, sel: Option<string>): Tile
    requires ts != []
  {
    ts[MainIndexOrLocal(isMainVideoLocal, ts, sel)]
  }

  lemma MainTileSpec(userName: string, isMuted: bool, isVideoOn: bool, local: Option<StreamRef>,
                     ps: seq<Participant>, isMainVideoLocal: bool, sel: Option<string>)
    ensures var ts := AllTiles(userName, isMuted, isVideoOn, local, ps);
      var t := MainTile(isMainVideoLocal, ts, sel);
      && (isMainVideoLocal || sel.None? || sel.value !in Ids(ps) ==> t == ts[0] && t.isLocal)
      && (!isMainVideoLocal && sel.Some? && sel.value in Ids(ps) && sel.value != LocalId ==>
            !t.isLocal && t.id == sel.value)
  {
    var ts := AllTiles(userName, isMuted, isVideoOn, local, ps);
    if !isMainVideoLocal && sel.Some? {
      if sel.value in Ids(ps) && sel.value != LocalId {
        var i :| 0 <= i < |ps| && Ids(ps)[i] == sel.value;
        assert ts[i + 1].id == sel.value;
      } else if sel.value !in Ids(ps) {
        assert sel.value != LocalId ==> FindIndex(ts, sel) == -1 by {
          if sel.value != LocalId {
            forall j | 0 < j < |ts| ensures ts[j].id != sel.value {
              assert Ids(ps)[j - 1] == ps[j - 1].id;
            }
          }
        }
      }
    }
  }

  // ---------------------------------------------------------------- PiP drag

  datatype Point = Point(x: int, y: int)

  const PipWidth: int := 200
  const PipHeight: int := 150

  function Max(a: int, b: int): int { if a < b then b else a }
  function Min(a: int, b: int): int { if a < b then a else b }

  /** `Math.max(0, Math.min(limit, v))`. */
  function Clamp(v: int, limit: int): (r: int)
    ensures 0 <= r <= Max(0, limit)
    ensures 0 <= v <= limit ==> r == v
    ensures v < 0 ==> r == 0
    ensures limit >= 0 && v > limit ==> r == limit
  {
    Max(0, Min(limit, v))
  }

  /** Where `handleMouseMove` puts the PiP. */
  function DragTo(startPip: Point, start: Point, cursor: Point, innerWidth: int, innerHeight: int): (p: Point)
    ensures 0 <= p.x <= Max(0, innerWidth - PipWidth)
    ensures 0 <= p.y <= Max(0, innerHeight - PipHeight)
  {
    Point(Clamp(startPip.x + (cursor.x - start.x), innerWidth - PipWidth),
          Clamp(startPip.y + (cursor.y - start.y), innerHeight - PipHeight))
  }

  /** A drag that returns the cursor to where it started puts an on-screen PiP back, and
      a drag that stays on screen moves the PiP by exactly the cursor's offset. */
  lemma DragFollowsCursor(startPip: Point, start: Point, cursor: Point, w: int, h: int)
    ensures 0 <= startPip.x <= w - PipWidth && 0 <= startPip.y <= h - PipHeight ==>
      DragTo(startPip, start, start, w, h) == startPip
    ensures var q := Point(startPip.x + cursor.x - start.x, startPip.y + cursor.y - start.y);
      0 <= q.x <= w - PipWidth && 0 <= q.y <= h - PipHeight ==> DragTo(startPip, start, cursor, w, h) == q
  {
  }

  // ---------------------------------------------------------------- chat

  /** `${message.user}: ${message.content}`; a missing property prints as `undefined`. */
  function NoteLine(m: Message): string {
    m.user.GetOr("undefined") + ": " + m.content.GetOr("undefined")
  }

  /** The page state the handlers update. */
  class Page {
    var selected: Option<string>
    var isMainVideoLocal: bool
    var pip: Point
    var isDragging: bool
    var dragStart: Point
    var dragStartPip: Point
    var messages: seq<Message>
    var meetingNotes: seq<string>
    var newMessage: string

    constructor ()
      ensures selected == None && isMainVideoLocal && pip == Point(20, 20) && !isDragging
      ensures messages == [] && meetingNotes == [] && newMessage == ""
    {
      selected, isMainVideoLocal, pip, isDragging := None, true, Point(20, 20), false;
      dragStart, dragStartPip := Point(0, 0), Point(0, 0);
      messages, meetingNotes, newMessage := [], [], "";
    }

    /** The selection effect, run after `participants` or the selection changed. */
    method ReconcileSelection(ps: seq<Participant>)
      modifies this
      ensures selected == Reconcile(ps, old(selected))
      ensures isMainVideoLocal == old(isMainVideoLocal) && pip == old(pip)
      ensures messages == old(messages) && meetingNotes == old(meetingNotes)
    {
      if ps != [] && !Truthy(selected) {
        selected := Some(ps[0].id);
      } else if Truthy(selected) && selected.value !in Ids(ps) {
        selected := if ps != [] && ps[0].id != "" then Some(ps[0].id) else None;
      }
    }

    /** `swapVideos`: only with a selection and at least one participant. */
    method SwapVideos(ps: seq<Participant>)
      modifies this
      ensures Truthy(old(selected)) && ps != [] ==> isMainVideoLocal == !old(isMainVideoLocal)
      ensures !(Truthy(old(selected)) && ps != []) ==> isMainVideoLocal == old(isMainVideoLocal)
      ensures selected == old(selected) && pip == old(pip)
    {
      if !Truthy(selected) || ps == [] {
        return;
      }
      isMainVideoLocal := !isMainVideoLocal;
    }

    method MouseDown(cursor: Point)
      modifies this
      ensures isDragging && dragStart == cursor && dragStartPip == old(pip) && pip == old(pip)
    {
      isDragging := true;
      dragStart := cursor;
      dragStartPip := pip;
    }

    /** `handleMouseMove`: ignored unless dragging; the PiP stays inside the window. */
    method MouseMove(cursor: Point, innerWidth: int, innerHeight: int)
      modifies this
      ensures old(isDragging) ==> pip == DragTo(dragStartPip, dragStart, cursor, innerWidth, innerHeight)
      ensures !old(isDragging) ==> pip == old(pip)
      ensures isDragging == old(isDragging) && dragStart == old(dragStart) && dragStartPip == old(dragStartPip)
    {
      if !isDragging {
        return;
      }
      var deltaX := cursor.x - dragStart.x;
      var deltaY := cursor.y - dragStart.y;
      var newX := Max(0, Min(innerWidth - PipWidth, dragStartPip.x + deltaX));
      var newY := Max(0, Min(innerHeight - PipHeight, dragStartPip.y + deltaY));
      pip := Point(newX, newY);
    }

    method MouseUp()
      modifies this
      ensures !isDragging && pip == old(pip)
    {
      isDragging := false;
    }

    /** `handleChatMessage`: a transcription becomes a notes line, anything else a chat
        message; never both. */
    method HandleChatMessage(m: Message)
      modifies this
      ensures m.isTranscription == Some(true) ==>
        meetingNotes == old(meetingNotes) + [NoteLine(m)] && messages == old(messages)
      ensures m.isTranscription != Some(true) ==>
        messages == old(messages) + [m] && meetingNotes == old(meetingNotes)
      ensures selected == old(selected) && newMessage == old(newMessage)
    {
      if m.isTranscription == Some(true) {
        meetingNotes := meetingNotes + [NoteLine(m)];
      } else {
        messages := messages + [m];
      }
    }

    /** `sendMessage`: the trimmed text goes out only when it is not empty and the socket
        reports connected, and then the input is cleared. */
    method SendMessage(sock: Socket.Client, now: string)
      modifies this, sock
      ensures var t := Trim(old(newMessage));
        t != "" && old(sock.isConnected) ==>
          && newMessage == ""
          && (old(sock.readyState) == Socket.Open ==>
                sock.sent == old(sock.sent) + [Socket.ChatEnvelope(sock.roomId, sock.userName, t, now, false)])
          && (old(sock.readyState) != Socket.Open ==> sock.sent == old(sock.sent))
      ensures !(Trim(old(newMessage)) != "" && old(sock.isConnected)) ==>
        newMessage == old(newMessage) && sock.sent == old(sock.sent)
      ensures sock.isConnected == old(sock.isConnected) && sock.readyState == old(sock.readyState)
      ensures messages == old(messages) && meetingNotes == old(meetingNotes) && selected == old(selected)
    {
      var t := Trim(newMessage);
      if t != "" && sock.isConnected {
        sock.SendMessage(t, false, now);
        newMessage := "";
      }
    }
  }
}

/** Local media as the WebRTC hook sees it (frontend/app/hooks/useWebRTC.ts): the
    captured tracks and their enabled flags, the text shown when capture fails, the
    secure-context test, and the outbound-video swap done by screen sharing. */
module Media {
  import opened Common

  datatype TrackKind = AudioTrack | VideoTrack

  /** A captured track. Every connection's sender refers to it by `id`, so its `enabled`
      flag is shared by every connection that sends it. */
  datatype Track = Track(id: nat, kind: TrackKind, enabled: bool)

  /** The local `MediaStream`: its tracks in `getTracks()` order. */
  datatype LocalStream = LocalStream(tracks: seq<Track>)

  function TrackIds(ts: seq<Track>): (ids: seq<nat>)
    ensures |ids| == |ts| && forall i :: 0 <= i < |ts| ==> ids[i] == ts[i].id
  {
    if ts == [] then [] else [ts[0].id] + TrackIds(ts[1..])
  }

  /** Index of the first track of a kind (`getAudioTracks()[0]`, `getVideoTracks()[0]`). */
  function FirstOfKind(ts: seq<Track>, k: TrackKind): (r: Option<nat>)
    ensures r.Some? ==> (r.value < |ts| && ts[r.value].kind == k
      && forall i :: 0 <= i < r.value ==> ts[i].kind != k)
    ensures r.None? ==> forall i :: 0 <= i < |ts| ==> ts[i].kind != k
  {
    if ts == [] then None
    else if ts[0].kind == k then Some(0)
    else match FirstOfKind(ts[1..], k)
         case None => None
         case Some(i) => Some(i + 1)
  }

  /** `track.enabled = !track.enabled` on the first track of the kind, if there is one. */
  function FlipFirst(ls: LocalStream, k: TrackKind): LocalStream {
    match FirstOfKind(ls.tracks, k)
    case None => ls
    case Some(i) => LocalStream(ls.tracks[i := ls.tracks[i].(enabled := !ls.tracks[i].enabled)])
  }

  /** The enabled flag of the first track of a kind. */
  function FirstEnabled(ls: LocalStream, k: TrackKind): Option<bool> {
    match FirstOfKind(ls.tracks, k)
    case None => None
    case Some(i) => Some(ls.tracks[i].enabled)
  }

  /** Toggling flips exactly the first track of the kind, keeps every id, kind and order,
      and toggling twice restores the stream. */
  lemma FlipFirstSpec(ls: LocalStream, k: TrackKind)
    ensures var r := FlipFirst(ls, k);
      && TrackIds(r.tracks) == TrackIds(ls.tracks)
      && FirstOfKind(r.tracks, k) == FirstOfKind(ls.tracks, k)
      && (FirstEnabled(ls, k).Some? ==> FirstEnabled(r, k) == Some(!FirstEnabled(ls, k).value))
      && FlipFirst(r, k) == ls
  {
    var r := FlipFirst(ls, k);
    match FirstOfKind(ls.tracks, k)
    case None =>
    case Some(i) =>
      FirstOfKindSameKinds(ls.tracks, r.tracks, k);
      assert r.tracks[i := r.tracks[i].(enabled := !r.tracks[i].enabled)] == ls.tracks;
  }

  lemma {:induction false} FirstOfKindSameKinds(a: seq<Track>, b: seq<Track>, k: TrackKind)
    requires |a| == |b| && forall i :: 0 <= i < |a| ==> a[i].kind == b[i].kind
    ensures FirstOfKind(a, k) == FirstOfKind(b, k)
  {
    if a != [] {
      FirstOfKindSameKinds(a[1..], b[1..], k);
    }
  }

  /** The track ids the senders of a connection carry after `initializeMedia` adds each
      local track that no sender carries yet, in track order. */
  function AddMissing(have: seq<nat>, ids: seq<nat>): seq<nat>
    decreases |ids|
  {
    if ids == [] then have
    else AddMissing(if ids[0] in have then have else have + [ids[0]], ids[1..])
  }

  predicate NoDuplicates(xs: seq<nat>) {
    forall i, j :: 0 <= i < j < |xs| ==> xs[i] != xs[j]
  }

  /** Adding missing tracks keeps the existing senders in place, ends with every local
      track sent, adds nothing that is not a local track, and never sends one track
      twice. */
  lemma {:induction false} AddMissingSpec(have: seq<nat>, ids: seq<nat>)
    ensures var r := AddMissing(have, ids);
      && |r| >= |have| && r[..|have|] == have
      && (forall x :: x in ids ==> x in r)
      && (forall x :: x in r ==> x in have || x in ids)
      && (NoDuplicates(have) ==> NoDuplicates(r))
    decreases |ids|
  {
    if ids != [] {
      var next := if ids[0] in have then have else have + [ids[0]];
      AddMissingSpec(next, ids[1..]);
      var r := AddMissing(have, ids);
      assert r[..|next|] == next;
      assert r[..|have|] == next[..|have|];
      assert ids[0] in next;
      assert forall x :: x in ids ==> x == ids[0] || x in ids[1..];
      if NoDuplicates(have) && ids[0] !in have {
        forall i, j | 0 <= i < j < |next| ensures next[i] != next[j] {
          if j == |have| { assert next[i] == have[i]; }
        }
      }
    }
  }

  // ------------------------------------------------------- capture failures

  /** What `getUserMedia` (or the support check before it) threw: an `Error` with its
      `name` and `message`, or some other value. */
  datatype Thrown = ErrorObject(name: string, message: string) | NonError

  /** The failure classes the hook tells apart. */
  datatype MediaFailure =
    | PermissionDenied
    | DeviceNotFound
    | DeviceBusy
    | Overconstrained
    | OtherError(message: string)
    | NotAnError

  function Classify(t: Thrown): MediaFailure {
    match t
    case NonError => NotAnError
    case ErrorObject(name, message) =>
      if name == "NotAllowedError" then PermissionDenied
      else if name == "NotFoundError" then DeviceNotFound
      else if name == "NotReadableError" then DeviceBusy
      else if name == "OverconstrainedError" then Overconstrained
      else OtherError(message)
  }

  const MediaErrorPrefix: string := "Failed to access camera/microphone. "
  const HttpsNote: string :=
    "\n\nNote: Camera/microphone access requires HTTPS for remote connections. Please access the app via HTTPS or localhost."

  /** The text `initializeMedia` appends for each class. Each fixed text is written as two
      literals, cut after its first words, so that the verifier reads its first character
      and its length without unfolding a long literal character by character. */
  function Reason(f: MediaFailure): string {
    match f
    case PermissionDenied => "Permission denied. " + "Please allow camera and microphone access and try again."
    case DeviceNotFound => "No camera or microphone found. " + "Please check your devices."
    case DeviceBusy => "Camera or microphone " + "is already in use by another application."
    case Overconstrained => "Camera or microphone " + "constraints cannot be satisfied."
    case OtherError(m) => "Error: " + m
    case NotAnError => "Please check permissions " + "and try again."
  }

  /** `window.location.protocol === 'https:' || hostname === 'localhost' || hostname === '127.0.0.1'`. */
  predicate IsSecureContext(protocol: string, hostname: string) {
    protocol == "https:" || hostname == "localhost" || hostname == "127.0.0.1"
  }

  /** The error text `initializeMedia` stores when capture fails, `secure` being
      `IsSecureContext` of the page's location. */
  function MediaErrorMessage(t: Thrown, secure: bool): (r: string)
    ensures |MediaErrorPrefix| + |Reason(Classify(t))| <= |r|
    ensures r[..|MediaErrorPrefix|] == MediaErrorPrefix
    ensures r[|MediaErrorPrefix|..|MediaErrorPrefix| + |Reason(Classify(t))|] == Reason(Classify(t))
    ensures |r| - |MediaErrorPrefix| - |Reason(Classify(t))| == if secure then 0 else |HttpsNote|
    ensures !secure ==> r[|r| - |HttpsNote|..] == HttpsNote
  {
    MediaErrorPrefix + Reason(Classify(t)) + (if secure then "" else HttpsNote)
  }

  /** The stored message tells the failure class apart (and, for an other error, the
      platform's message): two failures that read the same on the same page are of one
      class. */
  lemma MediaErrorMessageIdentifiesClass(t1: Thrown, t2: Thrown, secure: bool)
    requires MediaErrorMessage(t1, secure) == MediaErrorMessage(t2, secure)
    ensures Classify(t1) == Classify(t2)
  {
    var m, r1, r2 := MediaErrorMessage(t1, secure), Reason(Classify(t1)), Reason(Classify(t2));
    var p := |MediaErrorPrefix|;
    assert |r1| == |r2|;
    assert r1 == m[p..p + |r1|] == r2;
    ReasonInjective(Classify(t1), Classify(t2));
  }

  /** Every failure class has its own reason text, so the message identifies the class
      (and, for other errors, the platform's message). */
  lemma ReasonInjective(f: MediaFailure, g: MediaFailure)
    requires Reason(f) == Reason(g)
    ensures f == g
  {
    if f.OtherError? && g.OtherError? {
      assert f.message == Reason(f)[7..] && g.message == Reason(g)[7..];
    } else if f.OtherError? {
      FixedReasonNotError(g);
    } else if g.OtherError? {
      FixedReasonNotError(f);
    } else if f != g {
      FixedReasonsDiffer(f, g);
    }
  }

  /** The fixed reason texts all have different lengths. */
  lemma FixedReasonsDiffer(f: MediaFailure, g: MediaFailure)
    requires !f.OtherError? && !g.OtherError? && f != g
    ensures |Reason(f)| != |Reason(g)|
  {
    assert |Reason(PermissionDenied)| == 75 && |Reason(DeviceNotFound)| == 57;
    assert |Reason(DeviceBusy)| == 62 && |Reason(Overconstrained)| == 53;
    assert |Reason(NotAnError)| == 39;
  }

  /** No fixed reason text starts the way an other-error text does. */
  lemma FixedReasonNotError(f: MediaFailure)
    requires !f.OtherError?
    ensures Reason(f) != [] && Reason(f)[0] != 'E'
  {
    match f
    case PermissionDenied => assert "Permission denied. "[0] == 'P';
    case DeviceNotFound => assert "No camera or microphone found. "[0] == 'N';
    case DeviceBusy => assert "Camera or microphone "[0] == 'C';
    case Overconstrained => assert "Camera or microphone "[0] == 'C';
    case NotAnError => assert "Please check permissions "[0] == 'P';
  }

  /** The four recognised platform error names map to the four fixed classes; every
      other `Error` keeps its message. */
  lemma ClassifySpec(t: Thrown)
    ensures t.NonError? <==> Classify(t) == NotAnError
    ensures Classify(t).OtherError? ==> (t.ErrorObject? && Classify(t).message == t.message
      && t.name !in {"NotAllowedError", "NotFoundError", "NotReadableError", "OverconstrainedError"})
  {
  }

  // ------------------------------------------------ screen-share track swap

  /** An outbound RTP sender and the track it currently sends. */
  datatype Sender = Sender(track: Option<Track>)

  predicate SendsVideo(s: Sender) {
    s.track.Some? && s.track.value.kind == VideoTrack
  }

  /** The first sender, over all connections in map order, that sends video:
      `Array.from(peers.values()).flatMap(p => p.getSenders()).find(...)`. */
  function FirstVideoSender(conns: seq<seq<Sender>>): (r: Option<(nat, nat)>)
    ensures r.Some? ==> (r.value.0 < |conns| && r.value.1 < |conns[r.value.0]|
      && SendsVideo(conns[r.value.0][r.value.1]))
    ensures r.Some? ==> forall i, j | 0 <= i < r.value.0 && 0 <= j < |conns[i]| :: !SendsVideo(conns[i][j])
    ensures r.Some? ==> forall j | 0 <= j < r.value.1 :: !SendsVideo(conns[r.value.0][j])
    ensures r.None? <==> forall i, j | 0 <= i < |conns| && 0 <= j < |conns[i]| :: !SendsVideo(conns[i][j])
  {
    if conns == [] then None
    else match FirstVideoIn(conns[0])
      case Some(j) => Some((0, j))
      case None =>
        match FirstVideoSender(conns[1..])
        case None => None
        case Some(p) =>
          assert forall i | 1 <= i < |conns| :: conns[i] == conns[1..][i - 1];
          Some((p.0 + 1, p.1))
  }

  function FirstVideoIn(ss: seq<Sender>): (r: Option<nat>)
    ensures r.Some? ==> (r.value < |ss| && SendsVideo(ss[r.value])
      && forall j :: 0 <= j < r.value ==> !SendsVideo(ss[j]))
    ensures r.None? ==> forall j :: 0 <= j < |ss| ==> !SendsVideo(ss[j])
  {
    if ss == [] then None
    else if SendsVideo(ss[0]) then Some(0)
    else match FirstVideoIn(ss[1..])
         case None => None
         case Some(j) => Some(j + 1)
  }

  /** Screen sharing as written: `replaceTrack` on that one sender only. */
  function ReplaceFirstVideoSender(conns: seq<seq<Sender>>, t: Track): seq<seq<Sender>> {
    match FirstVideoSender(conns)
    case None => conns
    case Some((i, j)) => conns[i := conns[i][j := Sender(Some(t))]]
  }

  /** The swap as written changes the one sender `find` returns and nothing else; with
      no video sender anywhere it changes nothing. */
  lemma ReplaceFirstVideoSenderSpec(conns: seq<seq<Sender>>, t: Track)
    ensures var r := ReplaceFirstVideoSender(conns, t);
      && |r| == |conns|
      && (forall i | 0 <= i < |conns| :: |r[i]| == |conns[i]|)
      && (FirstVideoSender(conns).None? ==> r == conns)
      && (FirstVideoSender(conns).Some? ==>
            var (a, b) := FirstVideoSender(conns).value;
            forall i, j | 0 <= i < |conns| && 0 <= j < |conns[i]| ::
              r[i][j] == if i == a && j == b then Sender(Some(t)) else conns[i][j])
  {
  }

  /** As intended (the code's comment: "Replace video track in local stream and all peer
      connections"): every video sender of every connection switches to the new track. */
  function ReplaceEveryVideoSender(conns: seq<seq<Sender>>, t: Track): (r: seq<seq<Sender>>)
  {
    if conns == [] then [] else [ReplaceIn(conns[0], t)] + ReplaceEveryVideoSender(conns[1..], t)
  }

  function ReplaceIn(ss: seq<Sender>, t: Track): seq<Sender> {
    if ss == [] then []
    else [if SendsVideo(ss[0]) then Sender(Some(t)) else ss[0]] + ReplaceIn(ss[1..], t)
  }

  /** As written, with two connections that each send the camera, the second connection
      keeps sending the camera track after a screen share starts. */
  lemma FirstVideoSenderLeavesOthersOnCamera(camera: Track, screen: Track)
    requires camera.kind == VideoTrack && camera != screen
    ensures var conns := [[Sender(Some(camera))], [Sender(Some(camera))]];
      ReplaceFirstVideoSender(conns, screen)[1][0] == Sender(Some(camera))
  {
    var conns := [[Sender(Some(camera))], [Sender(Some(camera))]];
    assert FirstVideoIn(conns[0]) == Some(0);
  }

  lemma {:induction false} ReplaceInSpec(ss: seq<Sender>, t: Track)
    ensures |ReplaceIn(ss, t)| == |ss|
    ensures forall j :: 0 <= j < |ss| ==>
      ReplaceIn(ss, t)[j] == if SendsVideo(ss[j]) then Sender(Some(t)) else ss[j]
  {
    if ss != [] {
      ReplaceInSpec(ss[1..], t);
    }
  }

  /** Corrected swap: every connection's every video sender sends the new track, and
      every other sender is untouched. */
  lemma {:induction false} ReplaceEveryVideoSenderSpec(conns: seq<seq<Sender>>, t: Track)
    ensures var r := ReplaceEveryVideoSender(conns, t);
      && |r| == |conns|
      && forall i :: 0 <= i < |conns| ==> (|r[i]| == |conns[i]| &&
           forall j :: 0 <= j < |conns[i]| ==>
             r[i][j] == if SendsVideo(conns[i][j]) then Sender(Some(t)) else conns[i][j])
  {
    if conns != [] {
      ReplaceInSpec(conns[0], t);
      ReplaceEveryVideoSenderSpec(conns[1..], t);
    }
  }
}

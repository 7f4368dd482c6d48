/** The JSON envelopes exchanged over the relay WebSocket. A JavaScript or Python
    object with optional properties becomes one record whose optional properties are
    `Option`s; `kind` is the object's `type` property. */
module Messages {
  import opened Common

  /** The type of a session description (an SDP blob). */
  datatype SdpType = OfferSdp | AnswerSdp

  /** A session description: its type and an opaque body. */
  datatype Description = Description(sdpType: SdpType, body: nat)

  /** A network-path (ICE) candidate, opaque. */
  type Candidate = nat

  datatype Message = Message(
    kind: string,
    senderId: Option<string>,
    senderName: Option<string>,
    targetId: Option<string>,
    roomId: Option<string>,
    sdp: Option<Description>,
    candidate: Option<Candidate>,
    isMuted: Option<bool>,
    isVideoOn: Option<bool>,
    id: Option<string>,
    user: Option<string>,
    userId: Option<string>,
    content: Option<string>,
    timestamp: Option<string>,
    isTranscription: Option<bool>)

  /** The id a browser uses for itself in every envelope it sends; the relay replaces
      it with the real user id before forwarding. */
  const CurrentUser: string := "current-user"

  /** An object that has only its `type` property. */
  function Blank(kind: string): Message {
    Message(kind, None, None, None, None, None, None, None, None, None, None, None, None, None, None)
  }
}

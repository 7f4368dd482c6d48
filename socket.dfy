/** The client side of the relay WebSocket (frontend/app/hooks/useSocket.ts): the
    `isConnected` and `error` state the four socket events drive, the split of inbound
    frames between the chat and the signalling callbacks, and the two send helpers that
    only write to an open socket. */
module Socket {
  import opened Common
  import opened Messages

  /** `WebSocket.readyState`, which the browser maintains. */
  datatype ReadyState = Connecting | Open | Closing | ClosedSocket

  /** The close code of a normal closure (section 7.4.1 of RFC 6455). */
  const NormalClosure: int := 1000

  const ClosePrefix: string := "Connection closed unexpectedly: "
  const UnknownReason: string := "Unknown error"
  const ConnectionErrorText: string := "WebSocket connection error. Please try again."

  /** `` `Connection closed unexpectedly: ${event.reason || 'Unknown error'}` ``: an empty
      reason is falsy and is replaced. */
  function CloseError(reason: string): (e: string)
    ensures |e| > |ClosePrefix| && e[..|ClosePrefix|] == ClosePrefix
    ensures reason != "" ==> e[|ClosePrefix|..] == reason
    ensures reason == "" ==> e[|ClosePrefix|..] == UnknownReason
  {
    ClosePrefix + (if reason == "" then UnknownReason else reason)
  }

  /** Which callback an inbound frame goes to. */
  datatype Sink = ChatSink | SignalSink

  function Route(m: Message): Sink {
    if m.kind == "chatMessage" then ChatSink else SignalSink
  }

  /** The chat envelope `sendMessage` writes; `isTranscription` is present only when the
      flag is set. */
  function ChatEnvelope(roomId: string, userName: string, content: string, now: string,
                        isTranscription: bool): (m: Message)
    ensures m.kind == "chatMessage" && Route(m) == ChatSink
    ensures m.roomId == Some(roomId) && m.user == Some(userName)
    ensures m.content == Some(content) && m.timestamp == Some(now)
    ensures m.userId == Some(CurrentUser)
    ensures m.isTranscription != Some(false)
    ensures m.isTranscription == Some(true) <==> isTranscription
    ensures m.senderId == None && m.targetId == None && m.sdp == None
  {
    Blank("chatMessage").(roomId := Some(roomId), user := Some(userName),
      content := Some(content), timestamp := Some(now), userId := Some(CurrentUser),
      isTranscription := if isTranscription then Some(true) else None)
  }

  /** The socket owned by one mounted hook. `chats` and `signals` are the frames handed
      to `onMessage` and `onSignal`, `sent` the frames written with `send`. */
  class Client {
    const roomId: string
    const userName: string
    var readyState: ReadyState
    var isConnected: bool
    var error: Option<string>
    var chats: seq<Message>
    var signals: seq<Message>
    var sent: seq<Message>

    /** The effect body: `new WebSocket(wsEndpoint)`, with the initial React state. */
    constructor (roomId: string, userName: string)
      ensures this.roomId == roomId && this.userName == userName
      ensures readyState == Connecting && !isConnected && error == None
      ensures chats == [] && signals == [] && sent == []
    {
      this.roomId, this.userName := roomId, userName;
      readyState, isConnected, error := Connecting, false, None;
      chats, signals, sent := [], [], [];
    }

    /** `onopen`, fired when the browser has opened the socket. */
    method OnOpen()
      modifies this
      ensures readyState == Open && isConnected && error == None
      ensures chats == old(chats) && signals == old(signals) && sent == old(sent)
    {
      readyState := Open;
      isConnected := true;
      error := None;
    }

    /** `onmessage`: a chat frame goes only to `onMessage`, any other frame only to
        `onSignal`. */
    method OnMessage(data: Message)
      modifies this
      ensures Route(data) == ChatSink ==> chats == old(chats) + [data] && signals == old(signals)
      ensures Route(data) == SignalSink ==> signals == old(signals) + [data] && chats == old(chats)
      ensures readyState == old(readyState) && isConnected == old(isConnected)
      ensures error == old(error) && sent == old(sent)
    {
      if data.kind == "chatMessage" {
        chats := chats + [data];
      } else {
        signals := signals + [data];
      }
    }

    /** `onclose`: always disconnected; an error only for an abnormal close code. */
    method OnClose(code: int, reason: string)
      modifies this
      ensures readyState == ClosedSocket && !isConnected
      ensures code != NormalClosure ==> error == Some(CloseError(reason))
      ensures code == NormalClosure ==> error == old(error)
      ensures chats == old(chats) && signals == old(signals) && sent == old(sent)
    {
      readyState := ClosedSocket;
      isConnected := false;
      if code != NormalClosure {
        error := Some(CloseError(reason));
      }
    }

    /** `onerror`: records the fixed error text and leaves `isConnected` alone. */
    method OnError()
      modifies this
      ensures error == Some(ConnectionErrorText)
      ensures readyState == old(readyState) && isConnected == old(isConnected)
      ensures chats == old(chats) && signals == old(signals) && sent == old(sent)
    {
      error := Some(ConnectionErrorText);
    }

    /** `sendMessage(content, isTranscription)`: one chat frame iff the socket is open. */
    method SendMessage(content: string, isTranscription: bool, now: string)
      modifies this
      ensures readyState == Open ==>
        sent == old(sent) + [ChatEnvelope(roomId, userName, content, now, isTranscription)]
      ensures readyState != Open ==> sent == old(sent)
      ensures readyState == old(readyState) && isConnected == old(isConnected)
      ensures error == old(error) && chats == old(chats) && signals == old(signals)
    {
      if readyState == Open {
        sent := sent + [ChatEnvelope(roomId, userName, content, now, isTranscription)];
      }
    }

    /** `sendJsonMessage(message)`: the object unchanged iff the socket is open. */
    method SendJsonMessage(m: Message)
      modifies this
      ensures readyState == Open ==> sent == old(sent) + [m]
      ensures readyState != Open ==> sent == old(sent)
      ensures readyState == old(readyState) && isConnected == old(isConnected)
      ensures error == old(error) && chats == old(chats) && signals == old(signals)
    {
      if readyState == Open {
        sent := sent + [m];
      }
    }
  }

  // ---------------------------------------------------------------- lemmas

  /** Two close reasons give the same error text exactly when they are equal or one is
      empty and the other is the literal fallback. */
  lemma CloseErrorCollision(r1: string, r2: string)
    ensures CloseError(r1) == CloseError(r2) <==>
      r1 == r2 || (r1 == "" && r2 == UnknownReason) || (r1 == UnknownReason && r2 == "")
  {
    if CloseError(r1) == CloseError(r2) {
      assert CloseError(r1)[|ClosePrefix|..] == CloseError(r2)[|ClosePrefix|..];
    }
  }

  /** The error of `onerror` is never one that `onclose` produces, so the two sources can
      be told apart. */
  lemma ErrorSourcesDistinct(reason: string)
    ensures CloseError(reason) != ConnectionErrorText
  {
    assert CloseError(reason)[0] == 'C';
    assert ConnectionErrorText == ['W'] + ConnectionErrorText[1..];
  }
}

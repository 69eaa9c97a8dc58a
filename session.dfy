/**
 * The browser client's state as one value, and what each of its event handlers does to it. Every
 * module-level variable of the client (`peerId`, `fileTransferInProgress`, `peerConnection`,
 * `dataChannel`, `receivedChunks`, `fileBuffer`, the current `onmessage` handler) is a field, and
 * so is every effect the handlers have on the outside world: the messages sent on the signaling
 * socket and on the data channel, the two progress counters, the recipient options, the files
 * offered for download and the alerts shown.
 */
module Session {
  import opened Wrappers
  import opened Bytes
  import opened Protocol
  import opened Chunking

  /** `RTCPeerConnection.signalingState`, restricted to the states these handlers reach. */
  datatype Signaling = Stable | HaveLocalOffer | HaveRemoteOffer

  /** What the client knows of its peer connection: the signaling state, the local and remote
      descriptions and the remote candidates added so far. */
  datatype PeerConn = PeerConn(signaling: Signaling, local: Option<Sdp>, remote: Option<Sdp>, candidates: seq<Candidate>)

  /** `new RTCPeerConnection()`. */
  const FreshConn: PeerConn := PeerConn(Stable, None, None, [])

  /** `RTCDataChannel.readyState`. */
  datatype ChannelState = Connecting | Open | Closing | Closed

  /** Which function is installed as `signalingSocket.onmessage`: the dispatcher installed at
      start-up, or the acknowledgement handler `createOffer` installs. */
  datatype Mode = Dispatching | AwaitingAck

  /** What `JSON.parse` makes of a text message on the data channel: a syntax error, `null`, or
      some other value whose `done` field is truthy or not. */
  datatype Json = Invalid | Null | Value(done: bool)

  /** One data-channel message: an `ArrayBuffer` or a string. */
  datatype ChannelData = Binary(bytes: seq<byte>) | Text(json: Json)

  /** `JSON.stringify({ done: true })`. */
  const DoneMessage: ChannelData := Text(Value(true))

  /** The `alert`s the handlers can show. */
  datatype Notice = NoRecipient | NoFile | ChannelNotOpen | BadTransferMessage

  /** What the user and the browser contribute to one event: the answer to `confirm`, the
      selected recipient (`""` when none), the selected file, the description the transport
      creates, and whether the transport's asynchronous calls succeed. */
  datatype Inputs = Inputs(accept: bool, recipient: string, file: Option<seq<byte>>, description: Sdp, transportOk: bool)

  datatype ClientState = ClientState(
    peerId: Option<PeerId>,
    inProgress: bool,
    pc: Option<PeerConn>,
    channel: Option<ChannelState>,
    mode: Mode,
    signalLog: seq<Envelope>,
    channelLog: seq<ChannelData>,
    senderProgress: nat,
    senderMax: nat,
    recipients: seq<PeerId>,
    receivedChunks: seq<seq<byte>>,
    fileBuffer: Option<seq<ChannelData>>,
    receiverProgress: nat,
    receivedFiles: seq<seq<byte>>,
    alerts: seq<Notice>)

  /** The state when the page has loaded: nothing assigned, nothing sent, `fileBuffer` absent. */
  const Initial: ClientState :=
    ClientState(None, false, None, None, Dispatching, [], [], 0, 0, [], [], None, 0, [], [])

  /** JavaScript truthiness of an optional string field. */
  predicate Truthy(o: Option<string>)
  {
    o.Some? && o.value != ""
  }

  // ---------------------------------------------------------------------------------------
  // Recipient list

  /** `peers.filter(peer => peer !== peerId)`. */
  function Recipients(peers: seq<PeerId>, me: Option<PeerId>): (r: seq<PeerId>)
    ensures forall p :: p in r <==> p in peers && Some(p) != me
    ensures |r| <= |peers|
  {
    if peers == [] then []
    else
      var init, last := peers[..|peers| - 1], peers[|peers| - 1];
      assert peers == init + [last];
      Recipients(init, me) + (if Some(last) != me then [last] else [])
  }

  /** The filter keeps the order of the list: filtering a concatenation concatenates. */
  lemma {:induction false} RecipientsAppend(a: seq<PeerId>, b: seq<PeerId>, me: Option<PeerId>)
    ensures Recipients(a + b, me) == Recipients(a, me) + Recipients(b, me)
    decreases |b|
  {
    if b == [] {
      assert a + b == a;
    } else {
      var init, last := b[..|b| - 1], b[|b| - 1];
      var tail := if Some(last) != me then [last] else [];
      assert (a + b)[..|a + b| - 1] == a + init && (a + b)[|a + b| - 1] == last;
      assert Recipients(a + b, me) == Recipients(a + init, me) + tail;
      RecipientsAppend(a, init, me);
      assert Recipients(b, me) == Recipients(init, me) + tail;
    }
  }

  /** Before an id is assigned nothing is filtered out. */
  lemma {:induction false} RecipientsUnassigned(peers: seq<PeerId>)
    ensures Recipients(peers, None) == peers
    decreases |peers|
  {
    if peers != [] {
      RecipientsUnassigned(peers[..|peers| - 1]);
    }
  }

  // ---------------------------------------------------------------------------------------
  // Sender

  /** The data-channel messages for a list of slices. */
  function Binaries(parts: seq<seq<byte>>): (r: seq<ChannelData>)
    ensures |r| == |parts|
  {
    seq(|parts|, i requires 0 <= i < |parts| => Binary(parts[i]))
  }

  /** The payloads of the binary messages of a list, in order; text messages contribute nothing. */
  function Payloads(ds: seq<ChannelData>): seq<seq<byte>>
  {
    if ds == [] then []
    else Payloads(ds[..|ds| - 1]) + (match ds[|ds| - 1] case Binary(b) => [b] case Text(_) => [])
  }

  /** Everything the chunk loop sends for a file on an open channel. */
  function Frames(file: seq<byte>): seq<ChannelData>
  {
    Binaries(Chunks(file)) + [DoneMessage]
  }

  /** The value of `offset` (and of the sender's progress bar) when the chunk loop ends. */
  function FinalOffset(file: seq<byte>): nat
  {
    |Chunks(file)| * ChunkSize
  }

  /** `Payloads` of a list of binary messages gives back the slices. */
  lemma {:induction false} PayloadsOfBinaries(parts: seq<seq<byte>>)
    ensures Payloads(Binaries(parts)) == parts
    decreases |parts|
  {
    if parts != [] {
      var init := parts[..|parts| - 1];
      assert Binaries(parts)[..|parts| - 1] == Binaries(init);
      PayloadsOfBinaries(init);
    }
  }

  /** `Payloads` of one more message. */
  lemma PayloadsSnoc(ds: seq<ChannelData>, d: ChannelData)
    ensures d.Binary? ==> Payloads(ds + [d]) == Payloads(ds) + [d.bytes]
    ensures d.Text? ==> Payloads(ds + [d]) == Payloads(ds)
  {
    assert (ds + [d])[..|ds|] == ds;
    if d.Text? {
      assert Payloads(ds + [d]) == Payloads(ds) + [];
    }
  }

  /** `Payloads` distributes over appending. */
  lemma {:induction false} PayloadsAppend(a: seq<ChannelData>, b: seq<ChannelData>)
    ensures Payloads(a + b) == Payloads(a) + Payloads(b)
    decreases |b|
  {
    if b == [] {
      assert a + b == a;
    } else {
      var init := b[..|b| - 1];
      assert (a + b)[..|a + b| - 1] == a + init;
      PayloadsAppend(a, init);
    }
  }

  /** The binary messages the sender emits put back together are the file, and they are followed
      by exactly one `{done: true}`. */
  lemma FramesCarryFile(file: seq<byte>)
    ensures Concat(Payloads(Frames(file))) == file
    ensures |Frames(file)| == |Chunks(file)| + 1
    ensures Frames(file)[|Frames(file)| - 1] == DoneMessage
    ensures forall k :: 0 <= k < |Frames(file)| - 1 ==> Frames(file)[k].Binary?
  {
    PayloadsAppend(Binaries(Chunks(file)), [DoneMessage]);
    assert [DoneMessage][..0] == [];
    assert Payloads([DoneMessage]) == [];
    PayloadsOfBinaries(Chunks(file));
    assert Payloads(Frames(file)) == Chunks(file);
    ChunksConcat(file);
  }

  /** A zero-byte file is sent as one empty chunk followed by `{done: true}`. */
  lemma EmptyFileFrames()
    ensures Frames([]) == [Binary([]), DoneMessage]
  {
    EmptyFile();
  }

  /** The chunk loop on the current data channel: every slice and then `{done: true}` when the
      channel is open; otherwise the first `send` throws and nothing goes out. */
  function StreamOutcome(s: ClientState, file: seq<byte>): ClientState
  {
    if s.channel == Some(Open) then
      s.(channelLog := s.channelLog + Frames(file), senderProgress := FinalOffset(file))
    else s
  }

  /** `sendFile(file)`. */
  function SendFileOutcome(s: ClientState, file: seq<byte>): ClientState
  {
    if s.channel != Some(Open) then s.(alerts := s.alerts + [ChannelNotOpen])
    else StreamOutcome(s.(senderMax := |file|, senderProgress := 0), file)
  }

  /** `setupDataChannel()`: a new channel on the current connection, still connecting. */
  function SetupDataChannelOutcome(s: ClientState): ClientState
  {
    if s.pc.None? then s else s.(channel := Some(Connecting))
  }

  /** `createOffer(recipient)`: a new connection and channel; once the offer is the local
      description it is sent to `recipient` and the acknowledgement handler takes over. */
  function CreateOfferOutcome(s: ClientState, recipient: string, inputs: Inputs): ClientState
  {
    var s1 := SetupDataChannelOutcome(s.(pc := Some(FreshConn)));
    if !inputs.transportOk then s1
    else
      s1.(pc := Some(FreshConn.(signaling := HaveLocalOffer, local := Some(inputs.description))),
          signalLog := s1.signalLog + [OfferMessage(inputs.description, recipient)],
          mode := AwaitingAck)
  }

  /** `sendFileToRecipient()`. */
  function SendFileToRecipientOutcome(s: ClientState, inputs: Inputs): ClientState
  {
    if inputs.recipient == "" then s.(alerts := s.alerts + [NoRecipient])
    else if inputs.file.None? then s.(alerts := s.alerts + [NoFile])
    else
      TransferOutcome(s.(signalLog := s.signalLog + [Request(inputs.recipient, s.peerId)]),
                      inputs.recipient, inputs.file.value, inputs)
  }

  /** After the request: `createOffer(recipient)`, the sender's progress reset to 0 of the file
      size, and the chunk loop on the channel `createOffer` made. */
  function TransferOutcome(s: ClientState, recipient: string, file: seq<byte>, inputs: Inputs): ClientState
  {
    var s1 := CreateOfferOutcome(s, recipient, inputs);
    StreamOutcome(s1.(senderMax := |file|, senderProgress := 0), file)
  }

  // ---------------------------------------------------------------------------------------
  // Signaling handlers

  /** `handleOffer(offer)`. */
  function HandleOfferOutcome(s: ClientState, offer: Sdp, inputs: Inputs): ClientState
  {
    if s.inProgress then s
    else
      var s1 := if s.pc.None? || s.pc.value.signaling != Stable
        then SetupDataChannelOutcome(s.(pc := Some(FreshConn))) else s;
      if !inputs.transportOk then s1
      else
        s1.(pc := Some(s1.pc.value.(signaling := Stable, remote := Some(offer), local := Some(inputs.description))),
            signalLog := s1.signalLog + [AnswerMessage(inputs.description), Ack(s1.peerId)])
  }

  /** `handleAnswer(answer)`; `None` when it throws because there is no connection. */
  function HandleAnswerOutcome(s: ClientState, answer: Sdp, inputs: Inputs): Option<ClientState>
  {
    if s.pc.None? then None
    else if s.pc.value.signaling != HaveLocalOffer || !inputs.transportOk then Some(s)
    else Some(s.(pc := Some(s.pc.value.(signaling := Stable, remote := Some(answer)))))
  }

  /** `handleCandidate(candidate)`. */
  function HandleCandidateOutcome(s: ClientState, c: Candidate, inputs: Inputs): ClientState
  {
    if s.pc.None? || !inputs.transportOk then s
    else s.(pc := Some(s.pc.value.(candidates := s.pc.value.candidates + [c])))
  }

  /** The first two steps of the dispatcher: take a truthy `peerId`, then rebuild the recipient
      options from `peers` when present. */
  function Announce(s: ClientState, m: Envelope): ClientState
  {
    var s1 := if Truthy(m.peerId) then s.(peerId := m.peerId) else s;
    if m.peers.Some? then s1.(recipients := Recipients(m.peers.value, s1.peerId)) else s1
  }

  /** A `fileTransferRequest` addressed to the client (its `target` equal to `peerId`, both
      possibly absent). */
  predicate IsRequestFor(m: Envelope, me: Option<PeerId>)
  {
    m.action == Some(RequestAction) && m.target == me
  }

  /** The answer to a request when no transfer is in progress. */
  function RequestOutcome(s: ClientState, m: Envelope, accept: bool): ClientState
  {
    if accept then s.(inProgress := true, signalLog := s.signalLog + [Ack(m.sender)]) else s
  }

  /** The dispatcher's last step: a candidate addressed to the client. */
  function CandidateStep(s: ClientState, m: Envelope, inputs: Inputs): ClientState
  {
    if m.candidate.Some? && m.target == s.peerId then HandleCandidateOutcome(s, m.candidate.value, inputs) else s
  }

  /** The start-up `onmessage` dispatcher. A parse failure is caught; a busy request returns
      early. */
  function DispatchOutcome(s: ClientState, parsed: Option<Envelope>, inputs: Inputs): ClientState
  {
    match parsed
    case None => s
    case Some(m) =>
      var s2 := Announce(s, m);
      if IsRequestFor(m, s2.peerId) && s2.inProgress then s2
      else DeliverOutcome(if IsRequestFor(m, s2.peerId) then RequestOutcome(s2, m, inputs.accept) else s2, m, inputs)
  }

  /** The dispatcher's offer, answer and candidate steps. An answer with no connection throws
      and the candidate step is skipped. */
  function DeliverOutcome(s: ClientState, m: Envelope, inputs: Inputs): ClientState
  {
    var forMe := m.target == s.peerId;
    var s4 := if m.offer.Some? && forMe then HandleOfferOutcome(s, m.offer.value, inputs) else s;
    if m.answer.Some? && forMe then
      match HandleAnswerOutcome(s4, m.answer.value, inputs)
      case None => s4
      case Some(s5) => CandidateStep(s5, m, inputs)
    else CandidateStep(s4, m, inputs)
  }

  /** The handler `createOffer` installs: an acknowledgement addressed to the client starts
      `sendFileToRecipient`; everything else, a parse failure included, does nothing. */
  function AckModeOutcome(s: ClientState, parsed: Option<Envelope>, inputs: Inputs): ClientState
  {
    match parsed
    case None => s
    case Some(m) =>
      if m.action == Some(AckAction) && m.target == s.peerId then SendFileToRecipientOutcome(s, inputs) else s
  }

  /** A message on the signaling socket, handled by whichever `onmessage` is installed. */
  function SignalingOutcome(s: ClientState, parsed: Option<Envelope>, inputs: Inputs): ClientState
  {
    if s.mode == Dispatching then DispatchOutcome(s, parsed, inputs) else AckModeOutcome(s, parsed, inputs)
  }

  /** `onicecandidate`, installed on every connection the client creates. */
  function IceCandidateOutcome(s: ClientState, c: Option<Candidate>): ClientState
  {
    if s.pc.Some? && c.Some? then s.(signalLog := s.signalLog + [CandidateMessage(c.value)]) else s
  }

  // ---------------------------------------------------------------------------------------
  // Data channel and receiver

  /** The channel's `open` event. */
  function ChannelOpenOutcome(s: ClientState): ClientState
  {
    if s.channel.Some? then s.(channel := Some(Open)) else s
  }

  /** The channel's `close` event resets the in-progress flag. */
  function ChannelCloseOutcome(s: ClientState): ClientState
  {
    s.(channel := if s.channel.Some? then Some(Closed) else None, inProgress := false)
  }

  /** The channel's `error` event resets the in-progress flag. */
  function ChannelErrorOutcome(s: ClientState): ClientState
  {
    s.(inProgress := false)
  }

  /** `fileBuffer` as a list, absent counting as empty. */
  function Buffered(s: ClientState): seq<ChannelData>
  {
    if s.fileBuffer.None? then [] else s.fileBuffer.value
  }

  /** `receiveFile(data)`. */
  function ReceiveFileOutcome(s: ClientState, d: ChannelData): ClientState
  {
    var s1 := s.(fileBuffer := Some(Buffered(s) + [d]));
    match d
    case Binary(b) => s1.(receivedChunks := s1.receivedChunks + [b], receiverProgress := s1.receiverProgress + |b|)
    case Text(Value(true)) => s1.(receivedFiles := s1.receivedFiles + [Concat(s1.receivedChunks)], receivedChunks := [])
    case Text(Value(false)) => s1
    case Text(_) => s1.(alerts := s1.alerts + [BadTransferMessage])
  }

  /** The channel's `message` event: only data that `JSON.parse` rejects, or that parses to
      `null`, reaches `receiveFile`. */
  function ChannelMessageOutcome(s: ClientState, d: ChannelData): ClientState
  {
    if d.Text? && d.json.Value? then s else ReceiveFileOutcome(s, d)
  }

  /** `receiveFile` called on each message of a list in turn. */
  function ReceiveAll(s: ClientState, ds: seq<ChannelData>): ClientState
    decreases |ds|
  {
    if ds == [] then s else ReceiveAll(ReceiveFileOutcome(s, ds[0]), ds[1..])
  }

  /** The channel's `message` event for each message of a list in turn. */
  function ChannelMessages(s: ClientState, ds: seq<ChannelData>): ClientState
    decreases |ds|
  {
    if ds == [] then s else ChannelMessages(ChannelMessageOutcome(s, ds[0]), ds[1..])
  }
}

/**
 * The browser client as an object whose fields are the module's variables. Each handler is a
 * method whose effect on the fields is exactly the matching outcome function of `Session`.
 */
module PeerClient {
  import opened Wrappers
  import opened Bytes
  import opened Protocol
  import opened Chunking
  import opened Session
  import opened SessionLemmas

  class Client {
    var peerId: Option<PeerId>
    var inProgress: bool
    var pc: Option<PeerConn>
    var channel: Option<ChannelState>
    var mode: Mode
    /** Every `signalingSocket.send`, oldest first. */
    var signalLog: seq<Envelope>
    /** Every `dataChannel.send` that went out, oldest first. */
    var channelLog: seq<ChannelData>
    var senderProgress: nat
    var senderMax: nat
    var recipients: seq<PeerId>
    var receivedChunks: seq<seq<byte>>
    var fileBuffer: Option<seq<ChannelData>>
    var receiverProgress: nat
    /** Every file offered for download as `received_file`. */
    var receivedFiles: seq<seq<byte>>
    var alerts: seq<Notice>

    /** The fields as one value. */
    function Snapshot(): ClientState
      reads this
    {
      ClientState(peerId, inProgress, pc, channel, mode, signalLog, channelLog, senderProgress, senderMax,
                  recipients, receivedChunks, fileBuffer, receiverProgress, receivedFiles, alerts)
    }

    constructor ()
      ensures Snapshot() == Initial
      ensures ReceiverInvariant(Snapshot())
    {
      peerId, inProgress, pc, channel, mode := None, false, None, None, Dispatching;
      signalLog, channelLog, senderProgress, senderMax := [], [], 0, 0;
      recipients, receivedChunks, fileBuffer, receiverProgress, receivedFiles := [], [], None, 0, [];
      alerts := [];
      InitialReceiver();
    }

    /** `signalingSocket.onmessage`: whichever handler is installed. */
    method OnSignalingMessage(parsed: Option<Envelope>, inputs: Inputs)
      modifies this
      ensures Snapshot() == SignalingOutcome(old(Snapshot()), parsed, inputs)
    {
      if mode == Dispatching {
        Dispatch(parsed, inputs);
      } else {
        AwaitAck(parsed, inputs);
      }
    }

    /** The dispatcher installed at start-up. */
    method Dispatch(parsed: Option<Envelope>, inputs: Inputs)
      modifies this
      ensures Snapshot() == DispatchOutcome(old(Snapshot()), parsed, inputs)
    {
      if parsed.None? {
        return;
      }
      var m := parsed.value;
      TakeAnnouncement(m);
      if m.action == Some(RequestAction) && m.target == peerId {
        if inProgress {
          return;
        }
        AnswerRequest(m, inputs.accept);
      }
      Deliver(m, inputs);
    }

    /** The dispatcher's first steps: a truthy `peerId` is taken, then `peers` fills the
        recipient list. */
    method TakeAnnouncement(m: Envelope)
      modifies this`peerId, this`recipients
      ensures Snapshot() == Announce(old(Snapshot()), m)
    {
      if Truthy(m.peerId) {
        peerId := m.peerId;
      }
      if m.peers.Some? {
        UpdateRecipientDropdown(m.peers.value);
      }
    }

    /** The `confirm` step of a request: accepting sets the flag and acknowledges the sender. */
    method AnswerRequest(m: Envelope, accept: bool)
      modifies this`inProgress, this`signalLog
      ensures Snapshot() == RequestOutcome(old(Snapshot()), m, accept)
    {
      if accept {
        inProgress := true;
        signalLog := signalLog + [Ack(m.sender)];
      }
    }

    /** The dispatcher's offer, answer and candidate steps. */
    method Deliver(m: Envelope, inputs: Inputs)
      modifies this
      ensures Snapshot() == DeliverOutcome(old(Snapshot()), m, inputs)
    {
      if m.offer.Some? && m.target == peerId {
        HandleOffer(m.offer.value, inputs);
      }
      if m.answer.Some? && m.target == peerId {
        var threw := HandleAnswer(m.answer.value, inputs);
        if threw {
          return;
        }
      }
      if m.candidate.Some? && m.target == peerId {
        HandleCandidate(m.candidate.value, inputs);
      }
    }

    /** `updateRecipientDropdown(peers)`: one option per peer other than the client itself. */
    method UpdateRecipientDropdown(peers: seq<PeerId>)
      modifies this`recipients
      ensures recipients == Recipients(peers, peerId)
    {
      recipients := Recipients(peers, peerId);
    }

    /** The handler `createOffer` installs. A text that does not parse throws out of the handler
        before anything happens. */
    method AwaitAck(parsed: Option<Envelope>, inputs: Inputs)
      modifies this
      ensures Snapshot() == AckModeOutcome(old(Snapshot()), parsed, inputs)
    {
      if parsed.Some? && parsed.value.action == Some(AckAction) && parsed.value.target == peerId {
        SendFileToRecipient(inputs);
      }
    }

    /** `handleOffer(offer)`. */
    method HandleOffer(offer: Sdp, inputs: Inputs)
      modifies this
      ensures Snapshot() == HandleOfferOutcome(old(Snapshot()), offer, inputs)
    {
      if inProgress {
        return;
      }
      if pc.None? || pc.value.signaling != Stable {
        pc := Some(FreshConn);
        SetupDataChannel();
      }
      if !inputs.transportOk {
        return;
      }
      pc := Some(pc.value.(signaling := HaveRemoteOffer, remote := Some(offer)));
      pc := Some(pc.value.(signaling := Stable, local := Some(inputs.description)));
      signalLog := signalLog + [AnswerMessage(inputs.description)];
      signalLog := signalLog + [Ack(peerId)];
    }

    /** `handleAnswer(answer)`; `threw` when reading the state of a missing connection throws. */
    method HandleAnswer(answer: Sdp, inputs: Inputs) returns (threw: bool)
      modifies this
      ensures HandleAnswerOutcome(old(Snapshot()), answer, inputs) == if threw then None else Some(Snapshot())
      ensures threw ==> Snapshot() == old(Snapshot())
    {
      if pc.None? {
        return true;
      }
      threw := false;
      if pc.value.signaling != HaveLocalOffer {
        return;
      }
      if inputs.transportOk {
        pc := Some(pc.value.(signaling := Stable, remote := Some(answer)));
      }
    }

    /** `handleCandidate(candidate)`. */
    method HandleCandidate(c: Candidate, inputs: Inputs)
      modifies this
      ensures Snapshot() == HandleCandidateOutcome(old(Snapshot()), c, inputs)
    {
      if pc.None? {
        return;
      }
      if inputs.transportOk {
        pc := Some(pc.value.(candidates := pc.value.candidates + [c]));
      }
    }

    /** `setupDataChannel()`. */
    method SetupDataChannel()
      modifies this`channel
      ensures Snapshot() == SetupDataChannelOutcome(old(Snapshot()))
    {
      if pc.None? {
        return;
      }
      channel := Some(Connecting);
    }

    /** `createOffer(recipient)`. */
    method CreateOffer(recipient: string, inputs: Inputs)
      modifies this
      ensures Snapshot() == CreateOfferOutcome(old(Snapshot()), recipient, inputs)
    {
      pc := Some(FreshConn);
      SetupDataChannel();
      if !inputs.transportOk {
        return;
      }
      pc := Some(pc.value.(signaling := HaveLocalOffer, local := Some(inputs.description)));
      signalLog := signalLog + [OfferMessage(inputs.description, recipient)];
      mode := AwaitingAck;
    }

    /** `sendFileToRecipient()`. */
    method SendFileToRecipient(inputs: Inputs)
      modifies this
      ensures Snapshot() == SendFileToRecipientOutcome(old(Snapshot()), inputs)
    {
      if inputs.recipient == "" {
        alerts := alerts + [NoRecipient];
        return;
      }
      if inputs.file.None? {
        alerts := alerts + [NoFile];
        return;
      }
      signalLog := signalLog + [Request(inputs.recipient, peerId)];
      StartTransfer(inputs.recipient, inputs.file.value, inputs);
    }

    /** The part of `sendFileToRecipient` after the request: `createOffer`, the progress bar
        reset, and the chunk loop. */
    method StartTransfer(recipient: string, file: seq<byte>, inputs: Inputs)
      modifies this
      ensures Snapshot() == TransferOutcome(old(Snapshot()), recipient, file, inputs)
    {
      CreateOffer(recipient, inputs);
      senderMax, senderProgress := |file|, 0;
      StreamFile(file);
    }

    /** `sendFile(file)`. */
    method SendFile(file: seq<byte>)
      modifies this
      ensures Snapshot() == SendFileOutcome(old(Snapshot()), file)
    {
      if channel != Some(Open) {
        alerts := alerts + [ChannelNotOpen];
        return;
      }
      senderMax, senderProgress := |file|, 0;
      StreamFile(file);
    }

    /** The `readSlice` / `onload` chain of both senders, one slice per turn of the loop. */
    method StreamFile(file: seq<byte>)
      modifies this`channelLog, this`senderProgress
      ensures Snapshot() == StreamOutcome(old(Snapshot()), file)
    {
      if channel != Some(Open) {
        return;
      }
      var chunks := Chunks(file);
      var offset, k := 0, 0;
      while offset == 0 || offset < |file|
        invariant 0 <= k <= |chunks| && offset == k * ChunkSize
        invariant k < |chunks| <==> k == 0 || offset < |file|
        invariant channelLog == old(channelLog) + Binaries(chunks[..k])
        invariant k == 0 ==> senderProgress == old(senderProgress)
        invariant k > 0 ==> senderProgress == offset
        decreases |chunks| - k
      {
        ChunkAt(file, k);
        var chunk := file[offset..Min(offset + ChunkSize, |file|)];
        assert Binaries(chunks[..k + 1]) == Binaries(chunks[..k]) + [Binary(chunk)];
        channelLog := channelLog + [Binary(chunk)];
        offset, k := offset + ChunkSize, k + 1;
        senderProgress := offset;
        ChunkCount(file, k);
      }
      assert chunks[..k] == chunks;
      channelLog := channelLog + [DoneMessage];
    }

    /** `receiveFile(data)`. */
    method ReceiveFile(d: ChannelData)
      modifies this
      ensures Snapshot() == ReceiveFileOutcome(old(Snapshot()), d)
    {
      BufferData(d);
      match d
      case Text(j) =>
        if j == Value(true) {
          receivedFiles := receivedFiles + [Concat(receivedChunks)];
          receivedChunks := [];
          return;
        } else if !j.Value? {
          alerts := alerts + [BadTransferMessage];
        }
      case Binary(b) =>
        receivedChunks := receivedChunks + [b];
        receiverProgress := receiverProgress + |b|;
    }

    /** The start of `receiveFile`: `fileBuffer` is created when absent, then `data` is pushed. */
    method BufferData(d: ChannelData)
      modifies this`fileBuffer
      ensures Snapshot() == old(Snapshot()).(fileBuffer := Some(Buffered(old(Snapshot())) + [d]))
    {
      var buffered := if fileBuffer.None? then [] else fileBuffer.value;
      fileBuffer := Some(buffered + [d]);
    }

    /** `dataChannel.onmessage`. */
    method OnChannelMessage(d: ChannelData)
      modifies this
      ensures Snapshot() == ChannelMessageOutcome(old(Snapshot()), d)
    {
      if d.Text? && d.json.Value? {
        return;
      }
      ReceiveFile(d);
    }

    /** `dataChannel.onopen`: the channel becomes open. */
    method OnChannelOpen()
      modifies this`channel
      ensures Snapshot() == ChannelOpenOutcome(old(Snapshot()))
    {
      if channel.Some? {
        channel := Some(Open);
      }
    }

    /** `dataChannel.onclose`. */
    method OnChannelClose()
      modifies this`channel, this`inProgress
      ensures Snapshot() == ChannelCloseOutcome(old(Snapshot()))
    {
      if channel.Some? {
        channel := Some(Closed);
      }
      inProgress := false;
    }

    /** `dataChannel.onerror`. */
    method OnChannelError()
      modifies this`inProgress
      ensures Snapshot() == ChannelErrorOutcome(old(Snapshot()))
    {
      inProgress := false;
    }

    /** `peerConnection.onicecandidate`. */
    method OnIceCandidate(c: Option<Candidate>)
      modifies this`signalLog
      ensures Snapshot() == IceCandidateOutcome(old(Snapshot()), c)
    {
      if pc.Some? && c.Some? {
        signalLog := signalLog + [CandidateMessage(c.value)];
      }
    }
  }
}

/** What the client's handlers guarantee, stated over the outcome functions of `Session`. */
module SessionLemmas {
  import opened Wrappers
  import opened Bytes
  import opened Protocol
  import opened Chunking
  import opened Session

  // ---------------------------------------------------------------------------------------
  // Dispatcher guards

  /** A signaling message that does not parse changes nothing, whichever handler is installed. */
  lemma ParseFailureIgnored(s: ClientState, inputs: Inputs)
    ensures SignalingOutcome(s, None, inputs) == s
  {
  }

  /** A request addressed to a client already busy with a transfer sends nothing: the dispatcher
      returns after taking the id and the peer list the message may carry. */
  lemma BusyRequestIgnored(s: ClientState, m: Envelope, inputs: Inputs)
    requires IsRequestFor(m, Announce(s, m).peerId) && s.inProgress
    ensures var r := DispatchOutcome(s, Some(m), inputs);
      r == s.(peerId := r.peerId, recipients := r.recipients)
  {
  }

  /** A bare request addressed to an idle client: accepting sets the flag and sends one
      acknowledgement to the request's sender; declining changes nothing. */
  lemma RequestAnswered(s: ClientState, sender: Option<PeerId>, inputs: Inputs)
    requires s.peerId.Some? && !s.inProgress
    ensures var r := DispatchOutcome(s, Some(Request(s.peerId.value, sender)), inputs);
      if inputs.accept then r == s.(inProgress := true, signalLog := s.signalLog + [Ack(sender)]) else r == s
  {
  }

  /** A message that assigns no id, carries no peer list and is addressed to someone else changes
      nothing, whatever offer, answer or candidate it carries. */
  lemma NotAddressedIgnored(s: ClientState, m: Envelope, inputs: Inputs)
    requires !Truthy(m.peerId) && m.peers.None? && m.target != s.peerId
    ensures DispatchOutcome(s, Some(m), inputs) == s
  {
  }

  /** Answers and candidates are sent with no `target`, so a client that has an id never handles
      one. */
  lemma UntargetedNeverHandled(s: ClientState, d: Sdp, c: Candidate, inputs: Inputs)
    requires s.peerId.Some?
    ensures DispatchOutcome(s, Some(AnswerMessage(d)), inputs) == s
    ensures DispatchOutcome(s, Some(CandidateMessage(c)), inputs) == s
  {
  }

  /** A busy client never loses its flag to a signaling message. */
  lemma SignalingKeepsFlag(s: ClientState, parsed: Option<Envelope>, inputs: Inputs)
    requires s.inProgress
    ensures SignalingOutcome(s, parsed, inputs).inProgress
  {
  }

  // ---------------------------------------------------------------------------------------
  // Offer, answer, candidate

  /** An offer arriving while the flag is set produces nothing. */
  lemma OfferWhileBusy(s: ClientState, offer: Sdp, inputs: Inputs)
    requires s.inProgress
    ensures HandleOfferOutcome(s, offer, inputs) == s
  {
  }

  /** An offer handled by an idle client: the answer goes out with no `target`, then an
      acknowledgement addressed to the client itself, in that order; a stable connection is
      reused and any other is replaced together with its channel. */
  lemma OfferAnswered(s: ClientState, offer: Sdp, inputs: Inputs)
    requires !s.inProgress && inputs.transportOk
    ensures var r := HandleOfferOutcome(s, offer, inputs);
      && r.signalLog == s.signalLog + [AnswerMessage(inputs.description), Ack(s.peerId)]
      && r.signalLog[|s.signalLog|].target.None?
      && r.signalLog[|s.signalLog| + 1].target == s.peerId
      && r.pc.Some? && r.pc.value.signaling == Stable
      && r.pc.value.remote == Some(offer) && r.pc.value.local == Some(inputs.description)
      && (if s.pc.Some? && s.pc.value.signaling == Stable
          then r.pc.value.candidates == s.pc.value.candidates && r.channel == s.channel
          else r.pc.value.candidates == [] && r.channel == Some(Connecting))
  {
  }

  /** After accepting a request the responder ignores the offer that follows it. */
  lemma AcceptThenOfferIgnored(s: ClientState, sender: Option<PeerId>, offer: Sdp, first: Inputs, second: Inputs)
    requires s.peerId.Some? && !s.inProgress && first.accept
    ensures var s1 := DispatchOutcome(s, Some(Request(s.peerId.value, sender)), first);
      s1.inProgress && DispatchOutcome(s1, Some(OfferMessage(offer, s.peerId.value)), second) == s1
  {
  }

  /** An answer is applied only in `have-local-offer`; in any other state nothing changes. */
  lemma AnswerNeedsLocalOffer(s: ClientState, answer: Sdp, inputs: Inputs)
    requires s.pc.Some?
    ensures var r := HandleAnswerOutcome(s, answer, inputs);
      && r.Some?
      && (if s.pc.value.signaling == HaveLocalOffer && inputs.transportOk
          then r.value == s.(pc := Some(s.pc.value.(signaling := Stable, remote := Some(answer))))
          else r.value == s)
  {
  }

  /** A candidate with no connection is dropped; with one it is added after the others. */
  lemma CandidateNeedsConnection(s: ClientState, c: Candidate, inputs: Inputs)
    ensures s.pc.None? ==> HandleCandidateOutcome(s, c, inputs) == s
    ensures s.pc.Some? && inputs.transportOk ==>
      HandleCandidateOutcome(s, c, inputs).pc.value.candidates == s.pc.value.candidates + [c]
  {
  }

  // ---------------------------------------------------------------------------------------
  // Offerer

  /** Once `createOffer` has sent its offer, the acknowledgement handler is installed: a fresh
      connection holding the offer as local description and a channel still connecting. */
  lemma OfferInstallsAckHandler(s: ClientState, recipient: string, inputs: Inputs)
    requires inputs.transportOk
    ensures var r := CreateOfferOutcome(s, recipient, inputs);
      && r.mode == AwaitingAck
      && r.signalLog == s.signalLog + [OfferMessage(inputs.description, recipient)]
      && r.pc == Some(PeerConn(HaveLocalOffer, Some(inputs.description), None, []))
      && r.channel == Some(Connecting)
  {
  }

  /** While the acknowledgement handler is installed, every message other than an
      acknowledgement is ignored, the answer to the offer included. */
  lemma AwaitingAckIgnoresOthers(s: ClientState, m: Envelope, inputs: Inputs)
    requires s.mode == AwaitingAck && m.action != Some(AckAction)
    ensures SignalingOutcome(s, Some(m), inputs) == s
  {
  }

  /** `sendFileToRecipient` with a recipient and a file: one request carrying the client's id,
      then a second offer from `createOffer`; the chunk loop runs on the new channel, which is
      still connecting, so not one chunk goes out. */
  lemma SendToRecipientStreamsNothing(s: ClientState, inputs: Inputs)
    requires inputs.recipient != "" && inputs.file.Some?
    ensures var r := SendFileToRecipientOutcome(s, inputs);
      && r.signalLog == s.signalLog + [Request(inputs.recipient, s.peerId)]
           + (if inputs.transportOk then [OfferMessage(inputs.description, inputs.recipient)] else [])
      && r.channelLog == s.channelLog
      && r.senderProgress == 0 && r.senderMax == |inputs.file.value|
      && r.channel == Some(Connecting)
  {
  }

  /** With no recipient or no file `sendFileToRecipient` only alerts. */
  lemma SendToRecipientGuards(s: ClientState, inputs: Inputs)
    ensures inputs.recipient == "" ==>
      SendFileToRecipientOutcome(s, inputs) == s.(alerts := s.alerts + [NoRecipient])
    ensures inputs.recipient != "" && inputs.file.None? ==>
      SendFileToRecipientOutcome(s, inputs) == s.(alerts := s.alerts + [NoFile])
  {
  }

  /** An acknowledgement addressed to an offerer repeats the request and the offer. */
  lemma AckRestartsTransfer(s: ClientState, inputs: Inputs)
    requires s.mode == AwaitingAck && inputs.recipient != "" && inputs.file.Some? && inputs.transportOk
    ensures var r := SignalingOutcome(s, Some(Ack(s.peerId)), inputs);
      && r.signalLog == s.signalLog + [Request(inputs.recipient, s.peerId), OfferMessage(inputs.description, inputs.recipient)]
      && r.mode == AwaitingAck
      && r.channelLog == s.channelLog
  {
    SendToRecipientStreamsNothing(s, inputs);
  }

  /** `sendFile` on an open channel sends every slice and then `{done: true}`; on any other it
      only alerts. */
  lemma SendFileSends(s: ClientState, file: seq<byte>)
    ensures var r := SendFileOutcome(s, file);
      if s.channel == Some(Open)
      then r.channelLog == s.channelLog + Frames(file) && r.senderMax == |file| && r.senderProgress == FinalOffset(file)
      else r == s.(alerts := s.alerts + [ChannelNotOpen])
  {
  }

  // ---------------------------------------------------------------------------------------
  // Receiver

  /** A binary chunk goes at the end of `receivedChunks` and raises the progress by its length. */
  lemma ReceiveBinary(s: ClientState, b: seq<byte>)
    ensures var r := ReceiveFileOutcome(s, Binary(b));
      r.receivedChunks == s.receivedChunks + [b] && r.receiverProgress == s.receiverProgress + |b|
      && r.receivedFiles == s.receivedFiles && Buffered(r) == Buffered(s) + [Binary(b)]
  {
  }

  /** A text message never joins `receivedChunks`: `{done: true}` turns the chunks, in order,
      into one file and empties the list; other text leaves the list as it was. */
  lemma ReceiveText(s: ClientState, j: Json)
    ensures var r := ReceiveFileOutcome(s, Text(j));
      && r.receiverProgress == s.receiverProgress
      && (if j == Value(true)
          then r.receivedFiles == s.receivedFiles + [Concat(s.receivedChunks)] && r.receivedChunks == []
          else r.receivedFiles == s.receivedFiles && r.receivedChunks == s.receivedChunks)
      && (j.Invalid? || j.Null? <==> r.alerts == s.alerts + [BadTransferMessage])
  {
  }

  /** Every binary byte received so far is counted by the progress bar and is, in order, either
      in a file already assembled or in `receivedChunks`. */
  ghost predicate ReceiverInvariant(s: ClientState)
  {
    Accounted(s.receivedFiles, s.receivedChunks, s.receiverProgress, Payloads(Buffered(s)))
  }

  /** `arrived` is split, in order, between the assembled `files` and the pending `chunks`, and
      `progress` counts all of it. */
  ghost predicate Accounted(files: seq<seq<byte>>, chunks: seq<seq<byte>>, progress: nat, arrived: seq<seq<byte>>)
  {
    progress == TotalSize(arrived) && Concat(files) + Concat(chunks) == Concat(arrived)
  }

  lemma InitialReceiver()
    ensures ReceiverInvariant(Initial)
  {
  }

  /** `receiveFile` keeps the receiver invariant. */
  lemma ReceiveFileKeepsInvariant(s: ClientState, d: ChannelData)
    requires ReceiverInvariant(s)
    ensures ReceiverInvariant(ReceiveFileOutcome(s, d))
  {
    PayloadsSnoc(Buffered(s), d);
    match d
    case Binary(b) => BinaryKeepsInvariant(s, b);
    case Text(j) => TextKeepsInvariant(s, j);
  }

  lemma BinaryKeepsInvariant(s: ClientState, b: seq<byte>)
    requires ReceiverInvariant(s)
    requires Payloads(Buffered(s) + [Binary(b)]) == Payloads(Buffered(s)) + [b]
    ensures ReceiverInvariant(ReceiveFileOutcome(s, Binary(b)))
  {
    var r := ReceiveFileOutcome(s, Binary(b));
    assert r == s.(fileBuffer := Some(Buffered(s) + [Binary(b)]), receivedChunks := s.receivedChunks + [b], receiverProgress := s.receiverProgress + |b|);
    ChunkArrives(s.receivedFiles, s.receivedChunks, s.receiverProgress, Payloads(Buffered(s)), b);
  }

  lemma TextKeepsInvariant(s: ClientState, j: Json)
    requires ReceiverInvariant(s)
    requires Payloads(Buffered(s) + [Text(j)]) == Payloads(Buffered(s))
    ensures ReceiverInvariant(ReceiveFileOutcome(s, Text(j)))
  {
    if j == Value(true) {
      DoneKeepsInvariant(s);
    } else {
      var r := ReceiveFileOutcome(s, Text(j));
      assert r.(fileBuffer := s.fileBuffer, alerts := s.alerts) == s;
      assert Buffered(r) == Buffered(s) + [Text(j)];
    }
  }

  lemma DoneKeepsInvariant(s: ClientState)
    requires ReceiverInvariant(s)
    requires Payloads(Buffered(s) + [DoneMessage]) == Payloads(Buffered(s))
    ensures ReceiverInvariant(ReceiveFileOutcome(s, DoneMessage))
  {
    var r := ReceiveFileOutcome(s, DoneMessage);
    assert r == s.(fileBuffer := Some(Buffered(s) + [DoneMessage]), receivedFiles := s.receivedFiles + [Concat(s.receivedChunks)], receivedChunks := []);
    FileAssembled(s.receivedFiles, s.receivedChunks, s.receiverProgress, Payloads(Buffered(s)));
  }

  /** The receiver invariant's step for `{done: true}`. */
  lemma FileAssembled(files: seq<seq<byte>>, chunks: seq<seq<byte>>, progress: nat, arrived: seq<seq<byte>>)
    requires Accounted(files, chunks, progress, arrived)
    ensures Accounted(files + [Concat(chunks)], [], progress, arrived)
  {
    ConcatAppend(files, Concat(chunks));
    ExtendBoth(Concat(files), Concat(chunks), Concat(arrived), []);
  }

  /** The receiver invariant's step for one more binary chunk. */
  lemma ChunkArrives(files: seq<seq<byte>>, chunks: seq<seq<byte>>, progress: nat, arrived: seq<seq<byte>>, b: seq<byte>)
    requires Accounted(files, chunks, progress, arrived)
    ensures Accounted(files, chunks + [b], progress + |b|, arrived + [b])
  {
    ConcatAppend(arrived, b);
    ConcatAppend(chunks, b);
    ExtendBoth(Concat(files), Concat(chunks), Concat(arrived), b);
  }

  /** If `front + back` is `all`, then extending `back` extends `all`. */
  lemma ExtendBoth(front: seq<byte>, back: seq<byte>, all: seq<byte>, b: seq<byte>)
    requires front + back == all
    ensures front + (back + b) == all + b
  {
  }

  /** The channel's `message` event keeps the receiver invariant. */
  lemma ChannelMessageKeepsInvariant(s: ClientState, d: ChannelData)
    requires ReceiverInvariant(s)
    ensures ReceiverInvariant(ChannelMessageOutcome(s, d))
  {
    if !(d.Text? && d.json.Value?) {
      ReceiveFileKeepsInvariant(s, d);
    }
  }

  /** `receiveFile` over binary chunks appends them to `receivedChunks` and counts their bytes. */
  lemma {:induction false} ReceiveChunks(s: ClientState, parts: seq<seq<byte>>)
    ensures var r := ReceiveAll(s, Binaries(parts));
      && r.receivedChunks == s.receivedChunks + parts
      && r.receiverProgress == s.receiverProgress + TotalSize(parts)
      && r.receivedFiles == s.receivedFiles
    decreases |parts|
  {
    if parts == [] {
      assert s.receivedChunks + parts == s.receivedChunks;
      assert TotalSize(parts) == 0;
    } else {
      var s1 := ReceiveFileOutcome(s, Binary(parts[0]));
      assert Binaries(parts)[1..] == Binaries(parts[1..]);
      ReceiveChunks(s1, parts[1..]);
      assert parts == [parts[0]] + parts[1..];
      assert s1.receivedChunks + parts[1..] == s.receivedChunks + parts;
      ConcatPrepend(parts[0], parts[1..]);
    }
  }

  /** `receiveFile` over the messages of two lists is `receiveFile` over their concatenation. */
  lemma {:induction false} ReceiveAllAppend(s: ClientState, a: seq<ChannelData>, b: seq<ChannelData>)
    ensures ReceiveAll(s, a + b) == ReceiveAll(ReceiveAll(s, a), b)
    decreases |a|
  {
    if a == [] {
      assert a + b == b;
    } else {
      assert (a + b)[0] == a[0] && (a + b)[1..] == a[1..] + b;
      ReceiveAllAppend(ReceiveFileOutcome(s, a[0]), a[1..], b);
    }
  }

  /** The channel's `message` event over two lists is the event over their concatenation. */
  lemma {:induction false} ChannelMessagesAppend(s: ClientState, a: seq<ChannelData>, b: seq<ChannelData>)
    ensures ChannelMessages(s, a + b) == ChannelMessages(ChannelMessages(s, a), b)
    decreases |a|
  {
    if a == [] {
      assert a + b == b;
    } else {
      assert (a + b)[0] == a[0] && (a + b)[1..] == a[1..] + b;
      ChannelMessagesAppend(ChannelMessageOutcome(s, a[0]), a[1..], b);
    }
  }

  /** Fed the sender's messages one by one, `receiveFile` offers exactly the sent file for
      download and ends with an empty chunk list. */
  lemma ReceiveFileReassembles(s: ClientState, file: seq<byte>)
    requires s.receivedChunks == []
    ensures var r := ReceiveAll(s, Frames(file));
      r.receivedFiles == s.receivedFiles + [file] && r.receivedChunks == []
      && r.receiverProgress == s.receiverProgress + |file|
  {
    var chunks := Chunks(file);
    ReceiveAllAppend(s, Binaries(chunks), [DoneMessage]);
    var sent := ReceiveAll(s, Binaries(chunks));
    ReceiveChunks(s, chunks);
    assert sent.receivedChunks == chunks by {
      assert [] + chunks == chunks;
    }
    ChunksConcat(file);
    assert ReceiveAll(s, Frames(file)) == ReceiveFileOutcome(sent, DoneMessage);
  }

  /** The channel's `message` event over each message of a list: binary messages reach
      `receiveFile`, text that parses only reaches the log. */
  lemma {:induction false} ChannelDropsText(s: ClientState, parts: seq<seq<byte>>)
    ensures var r := ChannelMessages(s, Binaries(parts) + [DoneMessage]);
      r.receivedChunks == s.receivedChunks + parts && r.receivedFiles == s.receivedFiles
    decreases |parts|
  {
    if parts == [] {
      assert Binaries(parts) + [DoneMessage] == [DoneMessage];
      assert s.receivedChunks + parts == s.receivedChunks;
    } else {
      var s1 := ChannelMessageOutcome(s, Binary(parts[0]));
      assert (Binaries(parts) + [DoneMessage])[1..] == Binaries(parts[1..]) + [DoneMessage];
      ChannelDropsText(s1, parts[1..]);
      assert s1.receivedChunks + parts[1..] == s.receivedChunks + parts;
    }
  }

  /** Through the channel's `message` event the sender's `{done: true}` never reaches
      `receiveFile`, so the chunks pile up and no file is ever offered. */
  lemma ChannelNeverReassembles(s: ClientState, file: seq<byte>)
    ensures var r := ChannelMessages(s, Frames(file));
      r.receivedFiles == s.receivedFiles && r.receivedChunks == s.receivedChunks + Chunks(file)
  {
    ChannelDropsText(s, Chunks(file));
  }

  // ---------------------------------------------------------------------------------------
  // Channel lifecycle

  /** `close` and `error` on the data channel clear the flag whatever it was. */
  lemma ChannelEndClearsFlag(s: ClientState)
    ensures !ChannelCloseOutcome(s).inProgress && !ChannelErrorOutcome(s).inProgress
    ensures ChannelCloseOutcome(s).(inProgress := s.inProgress, channel := s.channel) == s
    ensures ChannelErrorOutcome(s).(inProgress := s.inProgress) == s
  {
  }

  /** `receiveFile` never assigns `fileTransferInProgress`, not even for `{done: true}`: only
      the buffer, the receiver's chunks, progress and files, and the alerts can change. */
  lemma ReceiveFileKeepsFlag(s: ClientState, d: ChannelData)
    ensures ReceiveFileOutcome(s, d).inProgress == s.inProgress
    ensures ReceiveFileOutcome(s, d).(fileBuffer := s.fileBuffer, receivedChunks := s.receivedChunks,
      receiverProgress := s.receiverProgress, receivedFiles := s.receivedFiles, alerts := s.alerts) == s
  {
  }

  /** A whole transfer handed to `receiveFile`, completion marker included, leaves the flag as
      it was; only the channel's `close` or `error` event clears it. */
  lemma {:induction false} ReceiveAllKeepsFlag(s: ClientState, ds: seq<ChannelData>)
    ensures ReceiveAll(s, ds).inProgress == s.inProgress
    decreases |ds|
  {
    if ds != [] {
      ReceiveFileKeepsFlag(s, ds[0]);
      ReceiveAllKeepsFlag(ReceiveFileOutcome(s, ds[0]), ds[1..]);
    }
  }
}

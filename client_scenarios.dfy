/** Whole exchanges between client objects, each message handed over by hand. */
module ClientScenarios {
  import opened Wrappers
  import opened Bytes
  import opened Protocol
  import opened Chunking
  import opened Session
  import opened SessionLemmas
  import opened PeerClient

  /** The inputs of an event the user plays no part in. */
  const Quiet: Inputs := Inputs(false, "", None, "", true)

  /** A client whose data channel has opened: it asked to send `file` to `peer-2`, then the
      channel's `open` event fired. */
  method OpenSender(file: seq<byte>) returns (sender: Client)
    ensures fresh(sender)
    ensures sender.channel == Some(Open) && sender.channelLog == []
    ensures sender.signalLog == [Request("peer-2", None), OfferMessage("offer", "peer-2")]
  {
    sender := new Client();
    sender.SendFileToRecipient(Inputs(false, "peer-2", Some(file), "offer", true));
    sender.OnChannelOpen();
  }

  /** Sending an empty file on an open channel goes out as one empty chunk and `{done: true}`. */
  method EmptyFileOnOpenChannel() returns (sent: seq<ChannelData>, progress: nat)
    ensures sent == [Binary([]), DoneMessage]
    ensures progress == ChunkSize
  {
    var sender := OpenSender([]);
    sender.SendFile([]);
    EmptyFileFrames();
    sent, progress := sender.channelLog, sender.senderProgress;
  }

  /** Hands each message of `frames` in turn to `receiver.receiveFile`. */
  method FeedReceiveFile(receiver: Client, frames: seq<ChannelData>)
    modifies receiver
    ensures receiver.Snapshot() == ReceiveAll(old(receiver.Snapshot()), frames)
  {
    ghost var s0 := receiver.Snapshot();
    var i := 0;
    while i < |frames|
      invariant 0 <= i <= |frames|
      invariant receiver.Snapshot() == ReceiveAll(s0, frames[..i])
    {
      ReceiveAllAppend(s0, frames[..i], [frames[i]]);
      assert frames[..i + 1] == frames[..i] + [frames[i]];
      receiver.ReceiveFile(frames[i]);
      i := i + 1;
    }
    assert frames[..i] == frames;
  }

  /** Hands each message of `frames` in turn to the receiver's data-channel `message` handler. */
  method FeedChannel(receiver: Client, frames: seq<ChannelData>)
    modifies receiver
    ensures receiver.Snapshot() == ChannelMessages(old(receiver.Snapshot()), frames)
  {
    ghost var s0 := receiver.Snapshot();
    var i := 0;
    while i < |frames|
      invariant 0 <= i <= |frames|
      invariant receiver.Snapshot() == ChannelMessages(s0, frames[..i])
    {
      ChannelMessagesAppend(s0, frames[..i], [frames[i]]);
      assert frames[..i + 1] == frames[..i] + [frames[i]];
      receiver.OnChannelMessage(frames[i]);
      i := i + 1;
    }
    assert frames[..i] == frames;
  }

  /** What `sendFile` emits, handed one message at a time to another client's `receiveFile`,
      is offered there as exactly the sent file. */
  method SendThenReceive(file: seq<byte>) returns (files: seq<seq<byte>>, progress: nat)
    ensures files == [file]
    ensures progress == |file|
  {
    var sender := OpenSender(file);
    sender.SendFile(file);
    var frames := sender.channelLog;
    assert frames == [] + Frames(file) == Frames(file);
    var receiver := new Client();
    FeedReceiveFile(receiver, frames);
    assert receiver.Snapshot() == ReceiveAll(Initial, Frames(file));
    ReceiveFileReassembles(Initial, file);
    files, progress := receiver.receivedFiles, receiver.receiverProgress;
  }

  /** The same messages handed to the other client's data-channel `message` handler instead:
      the chunks are kept but no file is ever offered. */
  method SendThenDeliver(file: seq<byte>) returns (files: seq<seq<byte>>, chunks: seq<seq<byte>>)
    ensures files == [] && chunks == Chunks(file)
  {
    var sender := OpenSender(file);
    sender.SendFile(file);
    var frames := sender.channelLog;
    assert frames == [] + Frames(file) == Frames(file);
    var receiver := new Client();
    FeedChannel(receiver, frames);
    assert receiver.Snapshot() == ChannelMessages(Initial, Frames(file));
    ChannelNeverReassembles(Initial, file);
    assert [] + Chunks(file) == Chunks(file);
    files, chunks := receiver.receivedFiles, receiver.receivedChunks;
  }

  /** The responder accepts `peer-1`'s request, so the offer that follows is ignored and no
      answer is ever sent. */
  method ResponderIgnoresOffer() returns (sent: seq<Envelope>, busy: bool)
    ensures sent == [Ack(Some("peer-1"))]
    ensures busy
  {
    var responder := new Client();
    responder.OnSignalingMessage(Some(Assigned("peer-2")), Quiet);
    assert responder.Snapshot() == Initial.(peerId := Some("peer-2"));
    responder.OnSignalingMessage(Some(PeersMessage(["peer-1", "peer-2"])), Quiet);
    var before := responder.Snapshot();
    assert before.peerId == Some("peer-2") && !before.inProgress && before.signalLog == [];
    AcceptThenOfferIgnored(before, Some("peer-1"), "offer", Quiet.(accept := true), Quiet);
    RequestAnswered(before, Some("peer-1"), Quiet.(accept := true));
    responder.OnSignalingMessage(Some(Request("peer-2", Some("peer-1"))), Quiet.(accept := true));
    responder.OnSignalingMessage(Some(OfferMessage("offer", "peer-2")), Quiet);
    sent, busy := responder.signalLog, responder.inProgress;
  }

  /** The offerer's acknowledgement handler answers the responder's acknowledgement with a second
      request and a second offer, and still streams nothing. */
  method OffererRestarts(file: seq<byte>) returns (sent: seq<Envelope>, streamed: seq<ChannelData>)
    ensures sent == [Request("peer-2", Some("peer-1")), OfferMessage("offer", "peer-2"),
                     Request("peer-2", Some("peer-1")), OfferMessage("offer", "peer-2")]
    ensures streamed == []
  {
    var offerer := new Client();
    offerer.OnSignalingMessage(Some(Assigned("peer-1")), Quiet);
    assert offerer.Snapshot() == Initial.(peerId := Some("peer-1"));
    var click := Inputs(false, "peer-2", Some(file), "offer", true);
    SendToRecipientStreamsNothing(offerer.Snapshot(), click);
    offerer.SendFileToRecipient(click);
    assert offerer.mode == AwaitingAck;
    AckRestartsTransfer(offerer.Snapshot(), click);
    offerer.OnSignalingMessage(Some(Ack(Some("peer-1"))), click);
    sent, streamed := offerer.signalLog, offerer.channelLog;
  }
}

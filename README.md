# File encryption and peer-to-peer transfer, modelled in Dafny

This project models the logic of four parts of a browser file-sharing tool:

- **The signaling server** (`signaling_server.js`). It keeps a registry from WebSocket connection to peer id (`"peer-" + Date.now()`). It sends each newcomer its `{peerId}` and broadcasts the `{peers}` list to every OPEN client on connect and on close. It relays every message that parses as JSON to every other OPEN client.
- **The transfer client** (`p2p_file_transfer.js`). This is the signaling-message dispatcher and the `fileTransferInProgress` flag. It covers the offer, answer and candidate guards and the acknowledgement handler that `createOffer` installs. It also covers the data-channel handlers, the 16 KiB chunk loop of the sender and the chunk reassembly of `receiveFile`.
- **The cipher container** (`aes.ts`). `AES256.encryptFile` writes a 16-byte IV followed by the AES-CBC ciphertext. `AES256.decryptFile` splits at byte 16, and it has three error paths: `TypeError`, a failed key import, and `null` for a failed decryption.
- **The page** (`index.ts`). A generated key is shown as base 64 text (`btoa` of its char codes) and read back through `atob`. The download names are `encrypted_` + name and `decrypted_` + name with its first `encrypted_` removed. The two button handlers assign the page-level `aes`, `encryptedData` and `fileName`.

Each stateful part is a class whose fields are the variables the JavaScript reassigns: `Server` has `clients` and `peers`, `Client` has the module globals of the transfer client, `AES256` has `key`, and `Page` has the page globals. Each method of `Client` is proved equal to a pure outcome function over a `ClientState` snapshot, for example `Snapshot() == ReceiveFileOutcome(old(Snapshot()), d)`. What the source promises is then proved as lemmas about those functions, in `session_lemmas.dfy`.

Module layout:

| file | contents |
|---|---|
| `wrappers.dfy`, `bytes.dfy` | `Option`, `Result`, bytes, and the concatenation of a list of byte strings |
| `decimal.dfy` | the decimal text of `Date.now()` |
| `protocol.dfy` | the JSON envelope as the handlers see it, and the messages each side builds |
| `signaling_server.dfy` | class `Server` and three join/relay scenarios |
| `chunking.dfy` | the slices the sender reads |
| `session.dfy` | the client state and one outcome function per handler |
| `session_lemmas.dfy` | the properties of those handlers |
| `peer_client.dfy` | class `Client` |
| `client_scenarios.dfy` | exchanges between two `Client` objects |
| `base64.dfy` | base 64 per section 4 of RFC 4648 |
| `aes.dfy` | class `AES256` over an abstract cipher |
| `index_page.dfy` | key text, download names, class `Page` |

In the following places the code does something other than what its comments, names or messages suggest. The model follows the code.

- **Container size.** WebCrypto AES-CBC always adds PKCS#7 padding, so a 1-byte file gives a 32-byte container (16 bytes of IV plus one padded block), not 17 bytes (`Aes.ContainerLength`).
- **Answers and candidates.** They are sent with no `target`. A client that has an id compares `undefined === peerId`, so it never handles them (`SessionLemmas.UntargetedNeverHandled`). An offerer has also replaced its dispatcher by then, so it does not even see them.
- **The responder after accepting.** Accepting a request sets the in-flight flag, so the responder ignores the offer that follows the request (`SessionLemmas.AcceptThenOfferIgnored`).
- **Reassembly through the channel.** The data channel's `message` handler only logs text that parses as JSON. `{done: true}` therefore never reaches `receiveFile` through it, and a file is never assembled that way (`SessionLemmas.ChannelNeverReassembles`).
- **Work done twice.** `sendFileToRecipient` calls `createOffer` again. An acknowledgement therefore makes the offerer send a second request and a second offer (`SessionLemmas.AckRestartsTransfer`).
- **The chunk loop on a new channel.** In `sendFileToRecipient`, the channel that `createOffer` has just made is still connecting when the chunk loop starts. The first `send` throws, so nothing is streamed (`SessionLemmas.SendToRecipientStreamsNothing`).
- **The flag after a completed transfer.** `receiveFile` never assigns `fileTransferInProgress`, not even when it assembles a file on `{done: true}`. Only the channel's `close` and `error` events clear it (`SessionLemmas.ReceiveFileKeepsFlag`, `SessionLemmas.ReceiveAllKeepsFlag`).
- **Duplicate peer ids.** Two connections accepted in the same millisecond get the same peer id (`SignalingServer.SameMillisecond`). Ids are distinct only while the clock strictly increases.

## Model

| member | source | states |
|---|---|---|
| Decimal.FromToText | signaling_server.js:16 | reading back the decimal text of a clock value gives the value |
| Decimal.ToTextInjective | signaling_server.js:16 | different clock values print as different numerals |
| Decimal.ToText | signaling_server.js:16 | the decimal digits, most significant first, that the template literal gives `Date.now()`; `FromToText` and `ToTextInjective` are its properties |
| SignalingServer.PeerIdOfInjective | signaling_server.js:16 | two equal `peer-` ids come from the same clock value |
| SignalingServer.PeerIdOf | signaling_server.js:16 | the id `peer-` followed by the decimal clock value; `PeerIdOfInjective` and `SameMillisecond` are its properties |
| SignalingServer.Ids | signaling_server.js:49 | `Array.from(peers.values())`: the registry's ids in insertion order; `IdsRemove` states how deletion changes it |
| SignalingServer.Send | signaling_server.js:20 | `ws.send`: the message goes at the end of that client's inbox |
| SignalingServer.SendToOpen | signaling_server.js:31-35 | the `forEach` over `wss.clients`: every OPEN client other than the excluded socket receives the message, in client order; `BroadcastPeers` and `OnMessage` state what it delivers |
| SignalingServer.Find | signaling_server.js:41-43 | a registered socket has a position in the client list, and that position holds it |
| SignalingServer.RemoveKeepsDistinct | signaling_server.js:43 | removing one client keeps the remaining sockets distinct |
| SignalingServer.IdsRemove | signaling_server.js:43-49 | deleting one Map entry removes exactly its id from the peer list and keeps the rest in order |
| SignalingServer.RemoveKeepsDistinctIds | signaling_server.js:43 | deleting one entry keeps the remaining ids pairwise distinct |
| SignalingServer.RemoveKeepsAligned | signaling_server.js:43 | removing the same position from the clients and the registry keeps each client matched with its own entry |
| SignalingServer.RemoveKeepsStamped | signaling_server.js:16-43 | after a deletion, each remaining id is still `peer-` plus the clock value it was made from |
| SignalingServer.Server.constructor | signaling_server.js:3-4 | no clients and an empty registry |
| SignalingServer.Server.BroadcastPeers | signaling_server.js:48-55 | every OPEN client gets the same `{peers}` message, holding the registry's ids in insertion order; closed clients get nothing |
| SignalingServer.Server.OnConnection | signaling_server.js:14-23 | exactly one entry (`ws`, `peer-`+clock) is added at the end; the newcomer receives `{peerId}` and then the broadcast, which already includes its own id; the other OPEN clients receive the broadcast; ids stay distinct when the clock exceeds every earlier value |
| SignalingServer.Server.Register | signaling_server.js:14-17 | the socket joins the clients as OPEN, the registry gains one entry at the end, and the peer list gains its id |
| SignalingServer.Server.OnMessage | signaling_server.js:25-39 | a parsed message is appended to the inbox of every OPEN client except the sender, whatever its `target`; an unparsable one changes nothing; the registry never changes |
| SignalingServer.Server.OnClosing | signaling_server.js:32-51 | only the closing socket stops being OPEN; nothing else changes |
| SignalingServer.Server.OnClose | signaling_server.js:41-45 | exactly that connection's client and registry entry are removed, the others keep their order, and the reduced list is broadcast; distinct ids stay distinct |
| SignalingServer.Server.Unregister | signaling_server.js:43 | position `k` is removed from the clients, the registry and the peer list, and from nothing else |
| SignalingServer.JoinOne | signaling_server.js:14-23 | one connection leaves the newcomer with `{peerId}` then its one-entry list |
| SignalingServer.JoinTwo | signaling_server.js:14-55 | after a second connection, the first client has also received the two-entry list and the second has `{peerId}` then that list |
| SignalingServer.TwoPeersJoin | signaling_server.js:14-55 | two clients joining at clock values 123 and 124 receive exactly `{peerId}` followed by each later peer list |
| SignalingServer.SameMillisecond | signaling_server.js:16 | two connections in the same millisecond get the same id |
| SignalingServer.RelayToOther | signaling_server.js:25-35 | a relayed message reaches the other client and not its sender, and the registry stays `["peer-1", "peer-2"]` |
| Bytes.Concat | p2p_file_transfer.js:185 | the assembled blob's length is the sum of the part lengths |
| Chunking.Chunks | p2p_file_transfer.js:240-273 | the sender always reads at least one slice |
| Chunking.ChunkAt | p2p_file_transfer.js:255-269 | slice `k` is bytes `[k*16384, min((k+1)*16384, size))` of the file |
| Chunking.ChunkCount | p2p_file_transfer.js:255-260 | slice `k` is read exactly when `k` is 0 or `k*16384 < size` |
| Chunking.ChunksConcat | p2p_file_transfer.js:240-273 | the slices put back together are the file |
| Chunking.ChunkSizes | p2p_file_transfer.js:240-273 | every slice but the last is 16384 bytes; the last is at most 16384 bytes and non-empty for a non-empty file |
| Chunking.EmptyFile | p2p_file_transfer.js:273 | a zero-byte file is read as one empty slice |
| Chunking.FortyKilobytes | p2p_file_transfer.js:240-273 | a 40960-byte file goes out as slices of 16384, 16384 and 8192 bytes |
| Session.Recipients | p2p_file_transfer.js:387-388 | a peer is offered exactly when it is in the list and is not the client's own id; the result is no longer than the list |
| Session.RecipientsAppend | p2p_file_transfer.js:387-388 | the filter keeps the list's order |
| Session.RecipientsUnassigned | p2p_file_transfer.js:387-388 | before an id is assigned the whole list is offered |
| Session.Binaries | p2p_file_transfer.js:250-256 | there is one channel message per slice |
| Session.PayloadsOfBinaries | p2p_file_transfer.js:250-256 | the binary messages carry the slices in order |
| Session.PayloadsSnoc | p2p_file_transfer.js:180-205 | one more binary message adds its bytes; a text message adds nothing |
| Session.PayloadsAppend | p2p_file_transfer.js:180-205 | the binary payloads of two runs of messages are those of each run, in order |
| Session.FramesCarryFile | p2p_file_transfer.js:250-273 | the sender's binary messages concatenate to the file and are followed by exactly one `{done: true}` |
| Session.EmptyFileFrames | p2p_file_transfer.js:250-273 | a zero-byte file is sent as one empty chunk followed by `{done: true}` |
| Session.Payloads | p2p_file_transfer.js:180-205 | the binary payloads of a run of channel messages, which is what `receiveFile` pushes onto `receivedChunks`; `PayloadsSnoc` and `PayloadsAppend` are its properties |
| Session.Frames | p2p_file_transfer.js:250-273 | what the chunk loop sends on an open channel; `FramesCarryFile` states that it carries the file |
| Session.FinalOffset | p2p_file_transfer.js:255-256 | the `offset` the loop ends at, which the progress bar shows: 16384 per slice read |
| Session.StreamOutcome | p2p_file_transfer.js:250-273 | the chunk loop: on an open channel every slice, then `{done: true}`, with progress at the final offset; otherwise the first `send` throws and nothing changes; `SendFileSends` and `SendToRecipientStreamsNothing` are its properties |
| Session.SendFileOutcome | p2p_file_transfer.js:340-378 | `sendFile(file)`: an alert unless the channel is open, otherwise progress reset and the chunk loop; `SendFileSends` is its property |
| Session.SetupDataChannelOutcome | p2p_file_transfer.js:130-138 | `setupDataChannel()`: without a connection nothing happens; otherwise a new channel that is still connecting |
| Session.CreateOfferOutcome | p2p_file_transfer.js:94-126 | `createOffer(recipient)`: a new connection and channel; when the offer is set, it is sent to the recipient and the acknowledgement handler is installed; `OfferInstallsAckHandler` is its property |
| Session.SendFileToRecipientOutcome | p2p_file_transfer.js:210-274 | `sendFileToRecipient()`: an alert for no recipient or no file, otherwise the request and the transfer; `SendToRecipientGuards` and `SendToRecipientStreamsNothing` are its properties |
| Session.TransferOutcome | p2p_file_transfer.js:237-273 | after the request: `createOffer`, the progress bar reset to 0 of the file size, and the chunk loop |
| Session.HandleOfferOutcome | p2p_file_transfer.js:277-306 | `handleOffer(offer)`: ignored while busy; a new connection unless the current one is stable; then the untargeted answer and an ack targeting the client itself; `OfferWhileBusy` and `OfferAnswered` are its properties |
| Session.HandleAnswerOutcome | p2p_file_transfer.js:309-321 | `handleAnswer(answer)`: throws with no connection, ignored outside `have-local-offer`, otherwise the connection becomes stable with the answer; `AnswerNeedsLocalOffer` is its property |
| Session.HandleCandidateOutcome | p2p_file_transfer.js:324-335 | `handleCandidate(candidate)`: dropped with no connection, otherwise added after the others; `CandidateNeedsConnection` is its property |
| Session.Announce | p2p_file_transfer.js:33-44 | the dispatcher's first steps: a truthy `peerId` is taken, then a `peers` list becomes the filtered recipients |
| Session.IsRequestFor | p2p_file_transfer.js:47 | a `fileTransferRequest` whose `target` equals the client's `peerId`, both possibly absent |
| Session.RequestOutcome | p2p_file_transfer.js:56-63 | the answer to a request: accepting sets the flag and sends one ack to the `sender`; `RequestAnswered` is its property |
| Session.CandidateStep | p2p_file_transfer.js:77-80 | the dispatcher's candidate step, for a candidate addressed to the client |
| Session.DispatchOutcome | p2p_file_transfer.js:26-85 | the start-up dispatcher: parse failures are caught, a busy request returns early, and the steps run in source order; `ParseFailureIgnored`, `BusyRequestIgnored` and `NotAddressedIgnored` are its properties |
| Session.DeliverOutcome | p2p_file_transfer.js:66-80 | the offer, answer and candidate steps; an answer with no connection throws and skips the candidate step; `UntargetedNeverHandled` is its property |
| Session.AckModeOutcome | p2p_file_transfer.js:118-125 | the handler `createOffer` installs: only an ack addressed to the client restarts `sendFileToRecipient`; `AwaitingAckIgnoresOthers` and `AckRestartsTransfer` are its properties |
| Session.SignalingOutcome | p2p_file_transfer.js:26-125 | a signaling message, handled by whichever `onmessage` is installed; `SignalingKeepsFlag` is its property |
| Session.IceCandidateOutcome | p2p_file_transfer.js:102-107 | `onicecandidate`: a candidate is sent untargeted; the end-of-candidates event sends nothing |
| Session.ChannelOpenOutcome | p2p_file_transfer.js:140-142 | the channel's `open` event: the channel becomes open |
| Session.ChannelCloseOutcome | p2p_file_transfer.js:143-146 | the channel's `close` event: the channel is closed and the flag cleared; `ChannelEndClearsFlag` is its property |
| Session.ChannelErrorOutcome | p2p_file_transfer.js:147-150 | the channel's `error` event: the flag is cleared; `ChannelEndClearsFlag` is its property |
| Session.Buffered | p2p_file_transfer.js:171-175 | `fileBuffer`, created empty when absent |
| Session.ReceiveFileOutcome | p2p_file_transfer.js:169-207 | `receiveFile(data)`: buffered, then a binary chunk is stored and counted, `{done: true}` assembles the stored chunks, a value with a falsy `done` is ignored, and text that does not parse or parses to `null` alerts; `ReceiveBinary`, `ReceiveText`, `ReceiveFileKeepsInvariant` and `ReceiveFileKeepsFlag` are its properties |
| Session.ChannelMessageOutcome | p2p_file_transfer.js:151-164 | the channel's `message` event: text that parses to a non-null JSON value is only logged; everything else goes to `receiveFile`; `ChannelDropsText` is its property |
| Session.ReceiveAll | p2p_file_transfer.js:169-207 | `receiveFile` on each message of a run in turn; `ReceiveFileReassembles` is its property |
| Session.ChannelMessages | p2p_file_transfer.js:151-164 | the channel's `message` event on each message of a run in turn; `ChannelNeverReassembles` is its property |
| SessionLemmas.ParseFailureIgnored | p2p_file_transfer.js:26-85 | a message that does not parse changes nothing, whichever handler is installed |
| SessionLemmas.BusyRequestIgnored | p2p_file_transfer.js:47-53 | a request for a busy client sends nothing, and the offer, answer and candidate steps are skipped |
| SessionLemmas.RequestAnswered | p2p_file_transfer.js:56-63 | accepting sets the flag and sends exactly one `fileTransferAck` targeting the request's `sender`; declining changes nothing |
| SessionLemmas.NotAddressedIgnored | p2p_file_transfer.js:47-80 | a message with no id, no peer list and another `target` changes nothing |
| SessionLemmas.UntargetedNeverHandled | p2p_file_transfer.js:72-80 | once the client has an id, untargeted answers and candidates change nothing |
| SessionLemmas.SignalingKeepsFlag | p2p_file_transfer.js:26-85 | no signaling message clears the in-flight flag |
| SessionLemmas.OfferWhileBusy | p2p_file_transfer.js:277-281 | an offer arriving while the flag is set changes nothing and sends nothing |
| SessionLemmas.OfferAnswered | p2p_file_transfer.js:283-301 | an idle client answers an offer with an untargeted answer followed by an ack targeting itself, in that order |
| SessionLemmas.AcceptThenOfferIgnored | p2p_file_transfer.js:56-69 | after accepting a request, the offer that follows it is ignored |
| SessionLemmas.AnswerNeedsLocalOffer | p2p_file_transfer.js:309-320 | an answer is applied only in `have-local-offer`; in any other state nothing changes |
| SessionLemmas.CandidateNeedsConnection | p2p_file_transfer.js:324-335 | with no peer connection a candidate is dropped; otherwise it is added after the others |
| SessionLemmas.OfferInstallsAckHandler | p2p_file_transfer.js:94-125 | `createOffer` makes a connection in `have-local-offer`, sends the offer to the recipient and installs the acknowledgement handler |
| SessionLemmas.AwaitingAckIgnoresOthers | p2p_file_transfer.js:118-125 | while the acknowledgement handler is installed, every non-ack message changes nothing |
| SessionLemmas.SendToRecipientStreamsNothing | p2p_file_transfer.js:229-273 | given a recipient and a file, the client sends a request carrying its own id and then an offer, and streams nothing on the still-connecting channel |
| SessionLemmas.SendToRecipientGuards | p2p_file_transfer.js:212-224 | with no recipient, or with no file, the only effect is an alert |
| SessionLemmas.AckRestartsTransfer | p2p_file_transfer.js:118-125 | an ack addressed to the offerer repeats the request and the offer |
| SessionLemmas.SendFileSends | p2p_file_transfer.js:340-378 | on an open channel every slice and then `{done: true}` go out, with progress at the final offset; otherwise only an alert |
| SessionLemmas.ReceiveBinary | p2p_file_transfer.js:175-205 | a binary chunk goes at the end of `receivedChunks` and raises progress by exactly its length |
| SessionLemmas.ReceiveText | p2p_file_transfer.js:175-201 | a text never joins `receivedChunks`; `{done: true}` offers the in-order concatenation and empties the chunks; unparsable text alerts |
| SessionLemmas.InitialReceiver | p2p_file_transfer.js:168 | the receiver invariant holds at start |
| SessionLemmas.ReceiveFileKeepsInvariant | p2p_file_transfer.js:169-207 | `receiveFile` keeps the invariant: progress counts every binary byte, and those bytes are, in order, the assembled files followed by the pending chunks |
| SessionLemmas.BinaryKeepsInvariant | p2p_file_transfer.js:202-205 | the invariant survives a binary chunk |
| SessionLemmas.TextKeepsInvariant | p2p_file_transfer.js:180-201 | the invariant survives a text message |
| SessionLemmas.DoneKeepsInvariant | p2p_file_transfer.js:183-186 | the invariant survives `{done: true}` |
| SessionLemmas.FileAssembled | p2p_file_transfer.js:185-186 | moving the chunks into one assembled file keeps the accounting |
| SessionLemmas.ChunkArrives | p2p_file_transfer.js:203-205 | one more chunk keeps the accounting |
| SessionLemmas.ChannelMessageKeepsInvariant | p2p_file_transfer.js:151-164 | the channel's `message` handler keeps the receiver invariant |
| SessionLemmas.ReceiveChunks | p2p_file_transfer.js:202-205 | a run of binary chunks is appended to `receivedChunks`, with their bytes counted |
| SessionLemmas.ReceiveAllAppend | p2p_file_transfer.js:169-207 | feeding two runs of messages to `receiveFile` is feeding their concatenation |
| SessionLemmas.ChannelMessagesAppend | p2p_file_transfer.js:151-164 | the same for the channel's `message` handler |
| SessionLemmas.ReceiveFileReassembles | p2p_file_transfer.js:169-207 | fed the sender's messages in order, `receiveFile` offers exactly the sent file, leaves no chunks pending and counts its size |
| SessionLemmas.ChannelDropsText | p2p_file_transfer.js:153-163 | through the channel handler, binary messages reach `receiveFile` and `{done: true}` is only logged |
| SessionLemmas.ChannelNeverReassembles | p2p_file_transfer.js:153-183 | through the channel handler the sender's messages leave every chunk pending and assemble no file |
| SessionLemmas.ChannelEndClearsFlag | p2p_file_transfer.js:143-150 | channel close and error clear the flag whatever it was; close also marks the channel closed, and nothing else changes |
| SessionLemmas.ReceiveFileKeepsFlag | p2p_file_transfer.js:169-207 | `receiveFile` leaves the flag as it was, `{done: true}` included; only the buffer, the chunks, the receiver's progress, the assembled files and the alerts can change |
| SessionLemmas.ReceiveAllKeepsFlag | p2p_file_transfer.js:169-207 | a whole run of messages handed to `receiveFile` leaves the flag as it was |
| PeerClient.Client.constructor | p2p_file_transfer.js:2-4 | the initial state: no id, not busy, no connection or channel, empty logs and buffers |
| PeerClient.Client.OnSignalingMessage | p2p_file_transfer.js:26-85 | the new state is that of the installed handler: this dispatcher, or the acknowledgement handler once `createOffer` has replaced it |
| PeerClient.Client.Dispatch | p2p_file_transfer.js:26-64 | the dispatcher's id, peer-list and request steps, then the offer, answer and candidate steps |
| PeerClient.Client.Deliver | p2p_file_transfer.js:66-80 | the offer, answer and candidate steps; an answer with no connection throws and skips the candidate step |
| PeerClient.Client.TakeAnnouncement | p2p_file_transfer.js:33-44 | a truthy `peerId` is taken, then a `peers` list becomes the filtered recipients |
| PeerClient.Client.AnswerRequest | p2p_file_transfer.js:56-63 | accepting sets the flag and sends one ack to the request's `sender`; declining changes nothing |
| PeerClient.Client.UpdateRecipientDropdown | p2p_file_transfer.js:383-396 | the offered recipients are the filtered peer list, and nothing else changes |
| PeerClient.Client.AwaitAck | p2p_file_transfer.js:118-125 | only an ack addressed to the client restarts `sendFileToRecipient` |
| PeerClient.Client.HandleOffer | p2p_file_transfer.js:277-306 | the offer outcome: ignored while busy, otherwise a new connection when needed, then the answer and the ack |
| PeerClient.Client.HandleAnswer | p2p_file_transfer.js:309-321 | the answer outcome, and `threw` exactly when there is no connection |
| PeerClient.Client.HandleCandidate | p2p_file_transfer.js:324-335 | the candidate outcome |
| PeerClient.Client.SetupDataChannel | p2p_file_transfer.js:130-165 | with a connection a new connecting channel; without one nothing changes |
| PeerClient.Client.CreateOffer | p2p_file_transfer.js:94-126 | a new connection and channel, the offer sent to the recipient, and the acknowledgement handler installed |
| PeerClient.Client.SendFileToRecipient | p2p_file_transfer.js:210-274 | the guards, the request, `createOffer`, progress reset to 0 of the file size, and the chunk loop |
| PeerClient.Client.StartTransfer | p2p_file_transfer.js:237-273 | `createOffer`, the progress bar reset to 0 of the file size, then the chunk loop, and nothing else |
| PeerClient.Client.SendFile | p2p_file_transfer.js:340-378 | an alert unless the channel is open, then progress reset and the chunk loop |
| PeerClient.Client.StreamFile | p2p_file_transfer.js:250-273 | on an open channel it appends every slice, then `{done: true}`, to the channel log, and progress ends at the final offset; otherwise nothing changes |
| PeerClient.Client.ReceiveFile | p2p_file_transfer.js:169-207 | the `receiveFile` outcome; the receiver invariant lemmas apply to it |
| PeerClient.Client.BufferData | p2p_file_transfer.js:171-175 | `fileBuffer` is created when absent and the data is pushed onto it; nothing else changes |
| PeerClient.Client.OnChannelMessage | p2p_file_transfer.js:151-164 | a binary message, or text that is not JSON or parses to `null`, goes to `receiveFile`; other JSON text is only logged |
| PeerClient.Client.OnChannelOpen | p2p_file_transfer.js:140-142 | the channel becomes open, and nothing else changes |
| PeerClient.Client.OnChannelClose | p2p_file_transfer.js:143-146 | the channel is closed and the flag cleared |
| PeerClient.Client.OnChannelError | p2p_file_transfer.js:147-150 | the flag is cleared |
| PeerClient.Client.OnIceCandidate | p2p_file_transfer.js:102-107 | a candidate is sent untargeted; the end-of-candidates event sends nothing |
| ClientScenarios.OpenSender | p2p_file_transfer.js:210-237 | a client that asked to send to `peer-2` has sent a request and an offer, and its channel is open with nothing streamed |
| ClientScenarios.EmptyFileOnOpenChannel | p2p_file_transfer.js:340-378 | an empty file goes out as one empty chunk then `{done: true}`, with progress at 16384 |
| ClientScenarios.FeedReceiveFile | p2p_file_transfer.js:169-207 | the receiver ends in the state `receiveFile` reaches over the messages in order |
| ClientScenarios.FeedChannel | p2p_file_transfer.js:151-164 | the receiver ends in the state the channel's `message` handler reaches over the messages in order |
| ClientScenarios.SendThenReceive | p2p_file_transfer.js:169-207 | the messages `sendFile` emits, handed to another client's `receiveFile`, offer exactly the file, with progress at its size |
| ClientScenarios.SendThenDeliver | p2p_file_transfer.js:151-164 | handed to the channel's `message` handler instead, all chunks stay pending and no file is offered |
| ClientScenarios.ResponderIgnoresOffer | p2p_file_transfer.js:47-69 | the responder accepts `peer-1`'s request, sends only the ack, ignores the offer and stays busy |
| ClientScenarios.OffererRestarts | p2p_file_transfer.js:118-125 | an ack makes the offerer send a second request and offer, and nothing is streamed |
| Base64.Value | index.ts:51 | only alphabet characters have a 6-bit value |
| Base64.ValueOfChar | index.ts:10-51 | each 6-bit value's character decodes to it |
| Base64.EncodeGroup | index.ts:10 | each group of one to three bytes becomes four characters |
| Base64.SixBitRoundTrip | index.ts:10-51 | cutting three bytes into four 6-bit values and joining them gives the bytes back |
| Base64.GroupRoundTrip | index.ts:10-51 | one encoded group decodes to its bytes |
| Base64.OneByteGroup | index.ts:10-51 | a final one-byte group (`xx==`) decodes to its byte |
| Base64.TwoByteGroup | index.ts:10-51 | a final two-byte group (`xxx=`) decodes to its bytes |
| Base64.ThreeByteGroup | index.ts:10-51 | a full group decodes to its three bytes |
| Base64.PaddedGroup | index.ts:51 | two characters then `==` decode to one byte |
| Base64.HalfPaddedGroup | index.ts:51 | three characters then `=` decode to two bytes |
| Base64.FullGroup | index.ts:51 | four alphabet characters decode to three bytes |
| Base64.RoundTrip | index.ts:10-51 | decoding the base 64 text of any bytes gives the bytes back |
| Base64.EncodedLength | index.ts:10 | the text has four characters per started group of three bytes |
| Base64.Encode | index.ts:10 | `btoa` of one character per byte: each group of three bytes becomes four characters, a final short group is padded with `=`; `RoundTrip`, `EncodedLength` and the test vectors are its properties |
| Base64.DecodeGroup | index.ts:51 | the bytes of one group of four characters, with padding allowed only in the last group |
| Base64.Decode | index.ts:51 | `atob` on text in groups of four; any other text gives no bytes; `RoundTrip` is its property |
| Base64.GroupChars | index.ts:10 | one group's four characters from its 6-bit values |
| Base64.EncodeFirstGroup | index.ts:10 | a first group of three bytes is encoded on its own, ahead of the rest |
| Base64.Rfc4648Groups | index.ts:10 | the vectors `""`, `"f"`, `"fo"` and `"foo"` of section 10 of RFC 4648, and `FF FE FD` as `//79` |
| Base64.Rfc4648Foob | index.ts:10 | the vector `"foob"` of section 10 of RFC 4648 gives `Zm9vYg==` |
| Base64.Rfc4648Fooba | index.ts:10 | the vector `"fooba"` gives `Zm9vYmE=` |
| Base64.Rfc4648Foobar | index.ts:10 | the vector `"foobar"` gives `Zm9vYmFy` |
| Aes.Split | aes.ts:36-37 | the two slices put together are the data, and the first is 16 bytes, or all the data when it is shorter |
| Aes.ValidKey | aes.ts:10-16 | `importKey` accepts a raw AES key of 16, 24 or 32 bytes; `EncryptFile` and `DecryptFile` fail exactly when it does not hold |
| Aes.PaddedLength | aes.ts:19 | the length of the ciphertext: the first multiple of 16 strictly above the plaintext length |
| Aes.Sound | aes.ts:19-50 | the laws the abstract cipher meets: decryption undoes encryption, and the ciphertext has the padded length |
| Aes.SplitFrame | aes.ts:36-37 | splitting an IV followed by a ciphertext gives back exactly the IV and the ciphertext |
| Aes.AES256.constructor | aes.ts:2-4 | the object keeps the key |
| Aes.AES256.EncryptFile | aes.ts:6-27 | fails, with `DataError`, exactly when the key is not 16, 24 or 32 bytes; otherwise the container is the IV followed by the ciphertext |
| Aes.AES256.DecryptFile | aes.ts:29-56 | a non-Blob is a `TypeError`; key import failing is a `DataError` escaping the `try`, exactly for a bad key length; data too short for an IV gives a failure or `null` |
| Aes.DecryptIsWhole | aes.ts:36-55 | a non-null result is exactly what the cipher decrypts from the IV and the rest of the data, never part of it |
| Aes.RoundTrip | aes.ts:6-56 | under the cipher's laws, decrypting an encrypted container with the same key gives the file |
| Aes.ContainerLength | aes.ts:22-24 | the container is 16 bytes plus the padded length; a one-byte file gives 32 bytes |
| Aes.EncryptThenDecrypt | aes.ts:6-56 | `decryptFile` of the result of `encryptFile`, on the same object, succeeds with the file |
| Aes.Pad | aes.ts:19 | PKCS#7 padding adds 1 to 16 bytes, reaching the next multiple of 16 |
| Aes.UnpadPad | aes.ts:19-50 | removing the padding gives the plaintext back |
| Aes.Unpad | aes.ts:50 | removes PKCS#7 padding; it fails unless the length is a positive multiple of 16 and the last byte `n`, from 1 to 16, ends the text `n` times; `UnpadPad` is its property |
| Aes.PaddingOnlyIsSound | aes.ts:19-50 | the cipher laws can be met, so the round-trip lemmas are not vacuous |
| IndexPage.FromCharCodes | index.ts:10 | one character per byte |
| IndexPage.CharCodes | index.ts:51 | one byte per character |
| IndexPage.CodesOfChars | index.ts:10-51 | char codes of the characters of bytes are the bytes |
| IndexPage.Btoa | index.ts:10 | `btoa`: fails for a character above code 255, otherwise the base 64 text of the char codes |
| IndexPage.Atob | index.ts:51 | `atob`: the characters of the decoded bytes, and a failure for text that is not base 64 |
| IndexPage.KeyText | index.ts:10 | `btoa(String.fromCharCode(...key))`; `KeyTextEncodes` and `KeyTextLength` are its properties |
| IndexPage.KeyFromText | index.ts:51 | `new Uint8Array(atob(text).split("").map(c => c.charCodeAt(0)))`; `KeyTextRoundTrip` is its property |
| IndexPage.KeyTextEncodes | index.ts:10 | `btoa` accepts the key's characters and gives the base 64 text of the key |
| IndexPage.KeyTextRoundTrip | index.ts:10-51 | the key text of any key decodes to that key |
| IndexPage.KeyTextLength | index.ts:8-10 | the text of a 32-byte key is 44 characters long |
| IndexPage.EncryptedName | index.ts:33 | the encrypted name is `encrypted_` followed by the name |
| IndexPage.OccursAt | index.ts:72 | the pattern stands in the name at that position |
| IndexPage.ReplaceFirst | index.ts:72 | `String.prototype.replace` with a string pattern: only the first occurrence is replaced; `FirstFrom` finds it |
| IndexPage.DecryptedName | index.ts:72 | `decrypted_` followed by the name with its first `encrypted_` removed; `DecryptedOfEncrypted`, `DecryptedUnmarked` and `DecryptedFirstMarker` are its properties |
| IndexPage.FirstFrom | index.ts:72 | the result is the first occurrence of the pattern at or after the start, or none is found |
| IndexPage.DecryptedOfEncrypted | index.ts:33-72 | the decrypted name of `encrypted_`+n is `decrypted_`+n |
| IndexPage.DecryptedUnmarked | index.ts:72 | a name without `encrypted_` is only prefixed with `decrypted_` |
| IndexPage.DecryptedFirstMarker | index.ts:72 | only the first `encrypted_` is removed, wherever it stands |
| IndexPage.Page.constructor | index.ts:3-5 | nothing is set yet |
| IndexPage.Page.GenerateAESKey | index.ts:7-12 | the key is 32 random bytes, and the key field holds text that decodes back to it |
| IndexPage.Page.EncryptFile | index.ts:14-36 | without a file it only alerts; otherwise `fileName` is set, there is a fresh 32-byte `aes`, the key field decodes to its key, and the link offers IV plus ciphertext as `encrypted_`+name |
| IndexPage.Page.DecryptFile | index.ts:38-81 | no file, or no key text: only an alert; key text that is not base 64 or a rejected import: no link; a `null` result: an alert and no link; otherwise a link to the plaintext under the decrypted name |
| IndexPage.EncryptThenDecryptPage | index.ts:14-81 | decrypting the encrypted download with the displayed key text offers the original bytes as `decrypted_`+name, from a container of 16 bytes plus the padded length |

## Left out

- The WebSocket and WebRTC transports are left out: sockets, `RTCPeerConnection`, session descriptions and ICE. A peer connection is its signaling state and the candidates it holds. Whether an asynchronous transport call succeeds is one boolean input per event (`transportOk`).
- The 5-second reconnect timers and the socket's `open`, `error` and `close` handlers (p2p_file_transfer.js:10-24) are left out, because they are timing and I/O.
- DOM work is left out: option elements, the download anchors' URLs and clicks, and console logging. `confirm` becomes the `accept` input. Alerts are a log of notices. The dropdown is the list of offered recipients. A progress bar is a counter, without the clamping of `<progress>` to its `max`.
- `Date.now()`, `crypto.getRandomValues`, the selected recipient and the chosen files are parameters.
- AES-CBC and `crypto.subtle` are left abstract. The cipher is a pair of functions, and the round trip is proved under the `Sound` laws (decryption undoes encryption, and the ciphertext has the padded length).
- Asynchrony is left out. Events are handled one at a time, and each `FileReader` callback chain is flattened into one loop. In the model the channel state therefore cannot change while the loop runs, so a stream is sent whole or not at all.
- A partial stream is not modelled. In the program each `reader.onload` is a separate task, so a channel `close` or `error` between two chunks makes the next `send` throw. That leaves a prefix of the chunks sent and no `{done: true}` (p2p_file_transfer.js:250-273 and 357-375).
- Events of an old data channel are not modelled. Channel events act on the current channel.
- `atob` is modelled as strict base 64 decoding. The forgiving decoder of the HTML standard also accepts missing padding and ASCII whitespace. That makes no difference for key text made by `btoa`.
- `fileBuffer` is not declared in the file that uses it. It is modelled as a module-level list that starts absent.
- `copyKey` and the `uploadFile` stub (index.ts:83-91) are left out, because they only use the clipboard or alert.
- The server's `listening` and `error` events (signaling_server.js:6-12) and its start-up logging are left out.

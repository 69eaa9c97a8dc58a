/**
 * The signaling messages exchanged through the rendezvous server. On the wire each one is a JSON
 * object; an `Envelope` keeps the fields the handlers look at, each of them present or absent
 * (`JSON.stringify` drops a field whose value is `undefined`). A JSON text that parses to
 * something other than an object is an envelope with every field absent.
 */
module Protocol {
  import opened Wrappers

  /** An identity the server hands out, such as "peer-1712345678901". */
  type PeerId = string

  /** An opaque session description produced by the transport (offer or answer). */
  type Sdp = string

  /** An opaque ICE candidate produced by the transport. */
  type Candidate = string

  const RequestAction: string := "fileTransferRequest"
  const AckAction: string := "fileTransferAck"

  datatype Envelope = Envelope(
    peerId: Option<string>,
    peers: Option<seq<string>>,
    action: Option<string>,
    target: Option<string>,
    sender: Option<string>,
    offer: Option<Sdp>,
    answer: Option<Sdp>,
    candidate: Option<Candidate>)

  /** The object with no field the handlers look at. */
  const Blank: Envelope := Envelope(None, None, None, None, None, None, None, None)

  /** `{ peerId }`, sent by the server to a new connection. */
  function Assigned(id: PeerId): Envelope { Blank.(peerId := Some(id)) }

  /** `{ peers: [...] }`, broadcast by the server. */
  function PeersMessage(ids: seq<PeerId>): Envelope { Blank.(peers := Some(ids)) }

  /** `{ target, action: 'fileTransferRequest', sender }`. */
  function Request(target: string, sender: Option<PeerId>): Envelope
  {
    Blank.(target := Some(target), action := Some(RequestAction), sender := sender)
  }

  /** `{ action: 'fileTransferAck', target }`. */
  function Ack(target: Option<PeerId>): Envelope
  {
    Blank.(action := Some(AckAction), target := target)
  }

  /** `{ offer, target }`. */
  function OfferMessage(offer: Sdp, target: string): Envelope
  {
    Blank.(offer := Some(offer), target := Some(target))
  }

  /** `{ answer }`: no target. */
  function AnswerMessage(answer: Sdp): Envelope { Blank.(answer := Some(answer)) }

  /** `{ candidate }`: no target. */
  function CandidateMessage(c: Candidate): Envelope { Blank.(candidate := Some(c)) }
}

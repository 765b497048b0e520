/** The messages a connection queues, from utils/message_queue.go. */
module Envelopes {
  import opened Bytes
  import opened FrameCodec

  datatype Option<+T> = None | Some(value: T)

  /** The three kinds of envelope the program ever builds. */
  datatype Kind = Message | Consensus | ConfirmReply

  /** `data` is `None` for Go's nil, which ends the send cycle. */
  datatype Envelope = Envelope(kind: Kind, msgId: uint64, data: Option<Bytes>)

  /** The frame kind byte for an envelope kind. */
  function FrameKind(kind: Kind): byte {
    match kind
    case Message => MESSAGE
    case Consensus => MESSAGE_CONFIRM_REQUEST
    case ConfirmReply => CONFIRM_REPLY
  }

  /** The frame written for an envelope. */
  function FrameFor(e: Envelope): Frame
    requires e.data.Some?
  {
    Frame(FrameKind(e.kind), e.msgId, e.data.value)
  }

  /** The acknowledgement queued for a frame: one zero byte under the same id. */
  function ReplyTo(f: Frame): Envelope {
    Envelope(ConfirmReply, f.msgId, Some([0]))
  }

  /** An envelope together with its number: it was the `no`-th one put on its connection. */
  datatype Ticket = Ticket(no: nat, env: Envelope)
}

/**
 One end of a connection as a step system: the send cycle, one atomic section at a time
 (peer_service/connection/connection.go:257-369), the receive cycle, one frame at a time
 (lines 199-255), and the calls made from outside.
 */
module Node {
  import opened Bytes
  import opened FrameCodec
  import opened Envelopes
  import opened SpamWindow

  /** Where the send cycle stands. `hand` is the envelope in `msgToSend`, if any. */
  datatype Pc =
    | AtHead(hand: Option<Ticket>)                       // before the status check
    | Running(hand: Option<Ticket>)                      // past the status check, stream not yet checked
    | Ready(t: Ticket)                                   // stream checked, envelope in hand
    | Checked(t: Ticket, confirm: bool, ok: bool)        // the confirm map has been read
    | Prepared(t: Ticket)                                // the frame is built
    | Written(t: Ticket)                                 // a Consensus frame is written, not yet queued again
    | Failed(t: Ticket)                                  // no stream, or the write failed
    | Finished(hand: Option<Ticket>)                     // the cycle has ended

  /** What was handed to `onMessage` for an accepted frame. */
  datatype Delivery = Delivery(frame: Frame, bytes: Bytes)

  datatype Node = Node(
    threshold: nat,
    uniqId: uint32,
    terminated: bool,
    banned: bool,
    queue: seq<Ticket>,
    pc: Pc,
    confirm: map<Id, bool>,
    window: Window,
    droppedMessages: nat,
    // history
    put: seq<Envelope>,            // every envelope ever queued from outside or as an acknowledgement
    taken: seq<Ticket>,            // every dequeue, in order
    asked: set<Id>,                // Consensus ids looked up in the confirm map
    written: seq<Ticket>,          // plain envelopes and acknowledgements written
    retired: seq<Ticket>,          // Consensus envelopes let go as confirmed
    dropped: seq<Ticket>,          // envelopes given up
    ended: seq<Ticket>,            // terminating envelopes taken
    terminatorPut: bool,           // `Terminate` has queued its envelope
    sent: seq<Frame>,              // frames that may have reached the channel
    received: seq<Frame>,          // frames read from the channel
    accepted: seq<Frame>,          // those of them that passed the duplicate filter
    barred: seq<bool>,             // for each of these, whether the peer was banned when it was read
    delivered: seq<Delivery>)

  function Initial(threshold: nat, uniqId: uint32): Node {
    Node(threshold, uniqId, false, false, [], AtHead(None), map[], EMPTY_WINDOW, 0,
         [], [], {}, [], [], [], [], false, [], [], [], [], [])
  }

  datatype Action =
    // send cycle
    | EnterPass                    // the loop condition
    | NoStreamYet                  // checkOutboundStream failed
    | TakeHand                     // msgToSend is kept from an earlier pass
    | Dequeue
    | FindNoStream                 // outboundStream is nil
    | Check                        // checkConfirmation, or no check for the other kinds
    | Settle                       // retire, or register the id, and build the frame
    | WriteOk
    | WriteFail(reached: bool)     // the peer may or may not have got the frame
    | Requeue
    | Retry
    | GiveUp
    // receive cycle
    | Receive(f: Frame)
    // the other writers on the same stream: signatures and peer lists
    | Control(f: Frame)
    // calls from outside
    | Send(e: Envelope)
    | SetBan(on: bool)
    | StoreTerminated
    | PutTerminator(id: Id)

  predicate Enabled(n: Node, a: Action) {
    match a
    case EnterPass => n.pc.AtHead?
    case NoStreamYet => n.pc.Running?
    case TakeHand => n.pc.Running? && n.pc.hand.Some?
    case Dequeue => n.pc.Running? && n.pc.hand.None? && n.queue != []
    case FindNoStream => n.pc.Ready?
    case Check => n.pc.Ready?
    case Settle => n.pc.Checked?
    case WriteOk => n.pc.Prepared?
    case WriteFail(_) => n.pc.Prepared?
    case Requeue => n.pc.Written?
    case Retry => n.pc.Failed?
    case GiveUp => n.pc.Failed?
    case Receive(_) => true
    case Control(f) => f.kind == SIGNATURE || f.kind == GET_PEERS_REPLY
    case Send(e) => e.kind != ConfirmReply
    case SetBan(_) => true
    case StoreTerminated => true
    case PutTerminator(_) => n.terminated
  }

  /** Puts an envelope at the tail under a new number. */
  function AddToQueue(n: Node, e: Envelope): Node {
    n.(put := n.put + [e], queue := n.queue + [Ticket(|n.put|, e)])
  }

  function DequeueStep(n: Node): Node
    requires Enabled(n, Dequeue)
  {
    var t := n.queue[0];
    var m := n.(queue := n.queue[1..], taken := n.taken + [t]);
    if t.env.data == None then m.(pc := Finished(None), ended := n.ended + [t])
    else m.(pc := Ready(t))
  }

  function CheckStep(n: Node): Node
    requires Enabled(n, Check)
  {
    var t := n.pc.t;
    var id := t.env.msgId;
    if t.env.kind == Consensus then
      n.(pc := Checked(t, id in n.confirm && n.confirm[id], id in n.confirm), asked := n.asked + {id})
    else n.(pc := Prepared(t))
  }

  function SettleStep(n: Node): Node
    requires Enabled(n, Settle)
  {
    var t := n.pc.t;
    var id := t.env.msgId;
    if n.pc.ok && n.pc.confirm then
      n.(confirm := n.confirm - {id}, retired := n.retired + [t], pc := AtHead(None))
    else if !n.pc.ok then n.(confirm := n.confirm[id := false], pc := Prepared(t))
    else n.(pc := Prepared(t))
  }

  /** The frame of the envelope in hand; the envelope in hand always carries data. */
  function Outgoing(t: Ticket): seq<Frame> {
    if t.env.data.Some? then [FrameFor(t.env)] else []
  }

  function WriteOkStep(n: Node): Node
    requires Enabled(n, WriteOk)
  {
    var t := n.pc.t;
    var m := n.(sent := n.sent + Outgoing(t));
    if t.env.kind == Consensus then m.(pc := Written(t))
    else m.(pc := AtHead(None), written := n.written + [t])
  }

  function GiveUpStep(n: Node): Node
    requires Enabled(n, GiveUp)
  {
    n.(droppedMessages := n.droppedMessages + |n.queue| + 1,
       dropped := n.dropped + [n.pc.t] + n.queue, queue := [], pc := AtHead(None))
  }

  /** The bytes passed on for a plain message: the connection's number, then the data. */
  function Prefixed(uniqId: uint32, data: Bytes): Bytes {
    PutLe(uniqId, 4) + data
  }

  /** `bs` is `data` behind the four bytes of the number `u`, the lowest byte first. */
  predicate CarriesNumber(bs: Bytes, u: uint32, data: Bytes) {
    && |bs| == 4 + |data| && bs[4..] == data
    && bs[0] as nat + 0x100 * bs[1] as nat + 0x1_0000 * bs[2] as nat + 0x100_0000 * bs[3] as nat == u
  }

  lemma NumberInFront(u: uint32, data: Bytes)
    ensures CarriesNumber(Prefixed(u, data), u, data)
  {
    hide PutLe;
    WordWritten(u);
  }

  /** What an accepted frame does. */
  function Dispatch(n: Node, f: Frame): Node {
    if f.kind == CONFIRM_REPLY then
      if f.msgId in n.confirm then n.(confirm := n.confirm[f.msgId := true]) else n
    else if f.kind == MESSAGE_CONFIRM_REQUEST then
      AddToQueue(n, ReplyTo(f)).(delivered := n.delivered + [Delivery(f, f.data)])
    else if f.kind == MESSAGE && !n.banned then
      n.(delivered := n.delivered + [Delivery(f, Prefixed(n.uniqId, f.data))])
    else n
  }

  function ReceiveStep(n: Node, f: Frame): Node {
    var (w, new_) := Arrive(n.threshold, n.window, f.msgId);
    var m := n.(window := w, received := n.received + [f]);
    if new_ then Dispatch(m.(accepted := n.accepted + [f], barred := n.barred + [n.banned]), f) else m
  }

  function SendStep(n: Node, e: Envelope): Node {
    if e.data == None || n.banned then n else AddToQueue(n, e)
  }

  function Step(n: Node, a: Action): Node
    requires Enabled(n, a)
  {
    match a
    case EnterPass => n.(pc := if n.terminated then Finished(n.pc.hand) else Running(n.pc.hand))
    case NoStreamYet => n.(pc := AtHead(n.pc.hand))
    case TakeHand => n.(pc := Ready(n.pc.hand.value))
    case Dequeue => DequeueStep(n)
    case FindNoStream => n.(pc := Failed(n.pc.t))
    case Check => CheckStep(n)
    case Settle => SettleStep(n)
    case WriteOk => WriteOkStep(n)
    case WriteFail(reached) =>
      n.(pc := Failed(n.pc.t), sent := if reached then n.sent + Outgoing(n.pc.t) else n.sent)
    case Requeue => n.(queue := n.queue + [n.pc.t], pc := AtHead(None))
    case Retry => n.(pc := AtHead(Some(n.pc.t)))
    case GiveUp => GiveUpStep(n)
    case Receive(f) => ReceiveStep(n, f)
    case Control(f) => n.(sent := n.sent + [f])
    case Send(e) => SendStep(n, e)
    case SetBan(on) => n.(banned := on)
    case StoreTerminated => n.(terminated := true)
    case PutTerminator(id) => AddToQueue(n, Envelope(Message, id, None)).(terminatorPut := true)
  }
}

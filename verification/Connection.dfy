/**
 The connection object itself, with the fields of peer_service/connection/connection.go:80-111
 that carry messages. Each method is proved against the step functions of `Node`: `model` is
 the abstract state, with its history, that the fields stand for.
 */
module Connection {
  import opened Bytes
  import opened FrameCodec
  import opened Envelopes
  import opened SpamWindow
  import opened NodeLaws
  import opened Status
  import N = Node

  /** utils/message_queue.go, as one caller at a time sees it; `Monitor` has the waiting. */
  class MessageQueue {
    var queue: seq<Envelope>

    constructor ()
      ensures queue == []
    {
      queue := [];
    }

    method Enqueue(value: Envelope)
      modifies this
      ensures queue == old(queue) + [value]
    {
      queue := queue + [value];
    }

    method GetLen() returns (n: nat)
      ensures n == |queue|
    {
      n := |queue|;
    }

    method Clear()
      modifies this
      ensures queue == []
    {
      queue := [];
    }

    /** `None` stands for the caller going to sleep on the condition variable. */
    method DequeueOrWait() returns (r: Option<Envelope>)
      modifies this
      ensures old(queue) == [] ==> r == None && queue == []
      ensures old(queue) != [] ==> r == Some(old(queue)[0]) && queue == old(queue)[1..]
    {
      if |queue| == 0 {
        return None;
      }
      r := Some(queue[0]);
      queue := queue[1..];
    }
  }

  /** utils/spam_queue.go. */
  class SpamQueue {
    var queue: seq<Id>

    constructor ()
      ensures queue == []
    {
      queue := [];
    }

    method Enqueue(value: Id)
      modifies this
      ensures queue == old(queue) + [value]
    {
      queue := queue + [value];
    }

    method GetLen() returns (n: nat)
      ensures n == |queue|
    {
      n := |queue|;
    }

    method Dequeue() returns (r: Option<Id>)
      modifies this
      ensures old(queue) == [] ==> r == None && queue == []
      ensures old(queue) != [] ==> r == Some(old(queue)[0]) && queue == old(queue)[1..]
    {
      if |queue| == 0 {
        return None;
      }
      r := Some(queue[0]);
      queue := queue[1..];
    }
  }

  /** The envelopes of a line of tickets. */
  function EnvelopesOf(ts: seq<Ticket>): (es: seq<Envelope>)
    ensures |es| == |ts|
    ensures forall i :: 0 <= i < |es| ==> es[i] == ts[i].env
  {
    seq(|ts|, i requires 0 <= i < |ts| => ts[i].env)
  }

  function BytesDelivered(ds: seq<N.Delivery>): (bs: seq<Bytes>)
    ensures |bs| == |ds|
    ensures forall i :: 0 <= i < |bs| ==> bs[i] == ds[i].bytes
  {
    seq(|ds|, i requires 0 <= i < |ds| => ds[i].bytes)
  }

  /** What the network and the clock decide during one pass of the send cycle. */
  datatype Outcome = Outcome(
    connected: bool,     // checkOutboundStream succeeded
    hasStream: bool,     // outboundStream is not nil
    writeOk: bool,       // the write returned no error
    reached: bool,       // a failed write reached the peer all the same
    giveUp: bool)        // the disconnect threshold has passed

  /** What the receive cycle takes from elsewhere: key recovery, the decoding of addresses and lists, the chain. */
  datatype Services = Services(
    ecRecover: Bytes -> Option<Key>,     // the key a signature of the peer's id recovers to
    isAddress: Bytes -> bool,            // the bytes are those of an address
    peersIn: Bytes -> Option<seq<string>>,   // the ids of the peers in a list; `None` is the decoder's panic
    chainId: nat)

  /** How long a signature is at the front of a signature frame. */
  function SignatureLength(svc: Services): nat {
    if svc.chainId >= 110 then 66 else 65
  }

  /** The key a signature frame proves, if it recovers to one and an address follows. */
  function SignedKey(svc: Services, data: Bytes): Option<Key> {
    if |data| < SignatureLength(svc) || !svc.isAddress(data[SignatureLength(svc)..]) then None
    else svc.ecRecover(data[..SignatureLength(svc)])
  }

  /**
   Of a signature frame the first 65 bytes, or from chain 110 on the first 66, go to the recovery of
   the key, and the rest must be an address; a shorter one proves nothing.
   */
  lemma SignatureInFront(svc: Services, signature: Bytes, address: Bytes)
    requires |signature| == if svc.chainId >= 110 then 66 else 65
    ensures SignedKey(svc, signature + address) == if svc.isAddress(address) then svc.ecRecover(signature) else None
    ensures forall data: Bytes :: |data| < |signature| ==> SignedKey(svc, data) == None
  {
    assert (signature + address)[..|signature|] == signature && (signature + address)[|signature|..] == address;
  }

  /** The frame proves a key that is the connection's, or can become it. */
  predicate KeyAccepted(svc: Services, data: Bytes, status: Status, key: Key) {
    status != Terminated && SignedKey(svc, data).Some? && (key == "" || key == SignedKey(svc, data).value)
  }

  // ----- one pass of the send cycle, as a function -----

  function AfterFailure(n: N.Node, o: Outcome): (m: N.Node)
    requires n.pc.Failed?
    ensures m.pc.AtHead?
  {
    if o.giveUp then N.Step(n, N.GiveUp) else N.Step(n, N.Retry)
  }

  /** The frame is built: write it, and queue a Consensus envelope again. */
  function AfterWrite(n: N.Node, o: Outcome): (m: N.Node)
    requires n.pc.Prepared?
    ensures m.pc.AtHead?
  {
    if o.writeOk then
      var written := N.Step(n, N.WriteOk);
      if written.pc.Written? then N.Step(written, N.Requeue) else written
    else AfterFailure(N.Step(n, N.WriteFail(o.reached)), o)
  }

  /** The attempt to send the envelope in hand. */
  function Attempt(n: N.Node, o: Outcome): (m: N.Node)
    requires n.pc.Ready?
    ensures m.pc.AtHead?
  {
    if !o.hasStream then AfterFailure(N.Step(n, N.FindNoStream), o)
    else
      var checked := N.Step(n, N.Check);
      var ready := if checked.pc.Checked? then N.Step(checked, N.Settle) else checked;
      if ready.pc.AtHead? then ready else AfterWrite(ready, o)
  }

  /** From the point where the stream is known to be there. */
  function Connected(n: N.Node, o: Outcome): (m: N.Node)
    requires n.pc.Running?
    ensures AtRest(m.pc)
  {
    if n.pc.hand.Some? then Attempt(N.Step(n, N.TakeHand), o)
    else if n.queue == [] then n
    else
      var taken := N.Step(n, N.Dequeue);
      if taken.pc.Finished? then taken else Attempt(taken, o)
  }

  /** Signatures and peer lists change nothing that carries messages. */
  lemma OtherKindsDoNothing(n: N.Node, f: Frame)
    ensures f.kind == SIGNATURE || f.kind == GET_PEERS_REPLY ==> N.Dispatch(n, f) == n
  {
    hide ReplyTo, N.Prefixed;
  }

  /** Between passes the cycle is at its loop head, asleep on the empty queue, or finished. */
  predicate AtRest(pc: N.Pc) {
    pc.AtHead? || (pc.Running? && pc.hand.None?) || pc.Finished?
  }

  /** One pass; a cycle asleep on the empty queue goes on from where it sleeps. */
  function Pass(n: N.Node, o: Outcome): (m: N.Node)
    requires AtRest(n.pc)
    ensures AtRest(m.pc)
  {
    if n.pc.Finished? then n
    else if n.pc.Running? then Connected(n, o)
    else
      var m := N.Step(n, N.EnterPass);
      if m.pc.Finished? then m
      else if !o.connected then N.Step(m, N.NoStreamYet)
      else Connected(m, o)
  }

  /** Passes until the outcomes run out; a finished cycle stays finished. */
  function Passes(n: N.Node, outcomes: seq<Outcome>): (m: N.Node)
    requires AtRest(n.pc)
    ensures AtRest(m.pc)
  {
    if outcomes == [] then n
    else Pass(Passes(n, outcomes[..|outcomes| - 1]), outcomes[|outcomes| - 1])
  }

  // ----- the object -----

  /** The variables of the send cycle with no envelope in hand. */
  const NOTHING_HELD: (Option<Bytes>, Kind, Id) := (None, Message, 0)

  class Connection {
    const threshold: nat
    const UniqId: uint32
    const messageQueue: MessageQueue
    const receivedMsgId: SpamQueue
    var msgSpamCount: map<Id, uint32>
    var confirmReceived: map<Id, bool>
    var isBanned: bool
    var status: Status
    var PeerPublicKey: Key
    var inboundStream: bool          // not nil
    var recoveredKeys: seq<Key>      // the calls of onPublicKeyRecovered
    var peerLists: seq<seq<string>>  // the calls of onPeerListUpdate
    var droppedMessages: nat
    // the variables of the send cycle, kept here between passes
    var msgToSend: Option<Bytes>
    var msgKind: Kind
    var msgId: Id
    var asleep: bool
    var sendCycleFinished: bool
    // the two effects outside: frames on the stream, calls of onMessage
    var wire: seq<Frame>
    var delivered: seq<Bytes>
    // what the fields stand for
    ghost var model: N.Node

    /** The variables of the send cycle. */
    function Held(): (Option<Bytes>, Kind, Id)
      reads this`msgToSend, this`msgKind, this`msgId
    {
      (msgToSend, msgKind, msgId)
    }

    ghost predicate HandMatches()
      reads this
    {
      var hand := Hand(model.pc);
      if msgToSend.None? then hand == []
      else |hand| == 1 && hand[0].env == Envelope(msgKind, msgId, msgToSend)
    }

    /** The fields stand for `model`, wherever the send cycle is. */
    ghost predicate Matches()
      reads this, messageQueue, receivedMsgId
    {
      && threshold == model.threshold && UniqId == model.uniqId
      && messageQueue.queue == EnvelopesOf(model.queue)
      && receivedMsgId.queue == model.window.recent
      && msgSpamCount == model.window.counts
      && confirmReceived == model.confirm
      && isBanned == model.banned
      && (status == Terminated) == model.terminated
      && droppedMessages == model.droppedMessages
      && wire == model.sent
      && delivered == BytesDelivered(model.delivered)
      && HandMatches()
    }

    /** Between passes. */
    ghost predicate Valid()
      reads this, messageQueue, receivedMsgId
    {
      && Matches()
      && AtRest(model.pc)
      && asleep == model.pc.Running?
      && sendCycleFinished == model.pc.Finished?
    }

    constructor (threshold: nat, uniqId: uint32)
      ensures Valid() && model == N.Initial(threshold, uniqId)
      ensures PeerPublicKey == "" && !isBanned && UniqId == uniqId && status == NotConnected
      ensures fresh(messageQueue) && fresh(receivedMsgId)
    {
      this.threshold := threshold;
      UniqId := uniqId;
      messageQueue := new MessageQueue();
      receivedMsgId := new SpamQueue();
      msgSpamCount := map[];
      confirmReceived := map[];
      isBanned := false;
      status := NotConnected;
      PeerPublicKey := "";
      inboundStream := false;
      recoveredKeys := [];
      peerLists := [];
      droppedMessages := 0;
      msgToSend := None;
      msgKind := Message;
      msgId := 0;
      asleep := false;
      sendCycleFinished := false;
      wire := [];
      delivered := [];
      model := N.Initial(threshold, uniqId);
    }

    // ----- calls from outside -----

    method AddToQueue(msg: Envelope)
      requires Valid()
      modifies messageQueue, this`model
      ensures Valid() && model == N.AddToQueue(old(model), msg)
      ensures messageQueue.queue == old(messageQueue.queue) + [msg]
    {
      messageQueue.Enqueue(msg);
      model := N.AddToQueue(model, msg);
    }

    method Send(msg: Envelope)
      requires Valid()
      modifies messageQueue, this`model
      ensures Valid() && model == N.SendStep(old(model), msg)
      ensures messageQueue.queue == old(messageQueue.queue) + if msg.data == None || isBanned then [] else [msg]
    {
      if msg.data == None {
        return;
      }
      if isBanned {
        return;
      }
      AddToQueue(msg);
    }

    method BanPeer()
      requires Valid()
      modifies this`isBanned, this`model
      ensures Valid() && model == N.Step(old(model), N.SetBan(true)) && isBanned
    {
      isBanned := true;
      model := N.Step(model, N.SetBan(true));
    }

    method RemoveFromBanList()
      requires Valid()
      modifies this`isBanned, this`model
      ensures Valid() && model == N.Step(old(model), N.SetBan(false)) && !isBanned
    {
      isBanned := false;
      model := N.Step(model, N.SetBan(false));
    }

    method StoreTerminated()
      requires Valid()
      modifies this`status, this`model
      ensures Valid() && model == N.Step(old(model), N.StoreTerminated) && status == Terminated
    {
      status := Terminated;
      model := N.Step(model, N.StoreTerminated);
    }

    /** The nil envelope, under a random id. */
    method PutTerminator(id: Id)
      requires Valid() && status == Terminated
      modifies messageQueue, this`model
      ensures Valid()
      ensures old(model).terminated && model == N.Step(old(model), N.PutTerminator(id))
      ensures messageQueue.queue == old(messageQueue.queue) + [Envelope(Message, id, None)]
    {
      messageQueue.Enqueue(Envelope(Message, id, None));
      model := N.Step(model, N.PutTerminator(id));
    }

    /** `Terminate` up to its waiting for the cycles. */
    method Terminate(id: Id)
      requires Valid()
      modifies messageQueue, this`status, this`inboundStream, this`model
      ensures Valid()
      ensures model == N.Step(N.Step(old(model), N.StoreTerminated), N.PutTerminator(id))
      ensures messageQueue.queue == old(messageQueue.queue) + [Envelope(Message, id, None)]
      ensures status == Terminated && !inboundStream
    {
      hide Valid;
      StoreTerminated();
      PutTerminator(id);
      ResetInboundStream();
    }

    // ----- status and key -----

    method CompareAndSwap(from: Status, to: Status)
      modifies this`status
      ensures status == if old(status) == from then to else old(status)
    {
      if status == from {
        status := to;
      }
    }

    method ResetInboundStream()
      requires Valid()
      modifies this`inboundStream
      ensures Valid() && !inboundStream
    {
      inboundStream := false;
    }

    method ValidatePublicKey(key: Key) returns (ok: bool)
      ensures ok == (PeerPublicKey == "" || PeerPublicKey == key)
    {
      ok := true;
      if |PeerPublicKey| > 0 {
        ok := PeerPublicKey == key;
      }
    }

    /** The statements both key handlers end with. */
    method SetKey(key: Key)
      requires Valid() && status != Terminated
      modifies this`status, this`PeerPublicKey, this`recoveredKeys
      ensures Valid()
      ensures status == HandshakeComplete && PeerPublicKey == key && recoveredKeys == old(recoveredKeys) + [key]
    {
      PeerPublicKey := key;
      CompareAndSwap(NotConnected, HandshakeComplete);
      CompareAndSwap(JustConnected, HandshakeComplete);
      recoveredKeys := recoveredKeys + [PeerPublicKey];
    }

    /** `panicked`: the data is too short to be cut behind the signature. */
    method HandleSignature(data: Bytes, svc: Services) returns (panicked: bool)
      requires Valid()
      modifies this`status, this`PeerPublicKey, this`inboundStream, this`recoveredKeys
      ensures Valid()
      ensures panicked <==> old(status) != Terminated && |data| < if svc.chainId >= 110 then 66 else 65
      ensures if KeyAccepted(svc, data, old(status), old(PeerPublicKey))
              then status == HandshakeComplete && SignedKey(svc, data) == Some(PeerPublicKey)
              else status == old(status) && PeerPublicKey == old(PeerPublicKey)
      ensures (status, PeerPublicKey) == if SignedKey(svc, data).Some?
                then Perform(SignatureRoutine(SignedKey(svc, data).value), old(status), old(PeerPublicKey))
                else (old(status), old(PeerPublicKey))
      ensures recoveredKeys == if KeyAccepted(svc, data, old(status), old(PeerPublicKey))
                               then old(recoveredKeys) + [PeerPublicKey] else old(recoveredKeys)
      ensures inboundStream == (old(inboundStream)
                                && (old(status) == Terminated || panicked
                                    || KeyAccepted(svc, data, old(status), old(PeerPublicKey))))
    {
      if SignedKey(svc, data).Some? {
        PerformSignature(SignedKey(svc, data).value, status, PeerPublicKey);
      }
      hide Perform;
      if status == Terminated {
        return false;
      }
      if |data| < SignatureLength(svc) {
        return true;
      }
      var recovered := svc.ecRecover(data[..SignatureLength(svc)]);
      if recovered.None? {
        ResetInboundStream();
        return false;
      }
      var valid := ValidatePublicKey(recovered.value);
      if !valid {
        ResetInboundStream();
        return false;
      }
      if !svc.isAddress(data[SignatureLength(svc)..]) {
        ResetInboundStream();
        return false;
      }
      SetKey(recovered.value);
      panicked := false;
    }

    /** `canonical` is the key `given` denotes, if it denotes one. */
    method TrySetPeerPublicKey(given: Key, canonical: Option<Key>) returns (ok: bool)
      requires Valid()
      modifies this`status, this`PeerPublicKey, this`inboundStream, this`recoveredKeys
      ensures Valid()
      ensures (status, PeerPublicKey) == if canonical.Some?
                then Perform(OutsideKeyRoutine(given, canonical.value), old(status), old(PeerPublicKey))
                else (old(status), old(PeerPublicKey))
      ensures ok <==> old(status) != Terminated && canonical.Some?
                      && (old(PeerPublicKey) == "" || old(PeerPublicKey) == canonical.value)
      ensures if ok && old(PeerPublicKey) == "" then status == HandshakeComplete && PeerPublicKey == given
              else status == old(status) && PeerPublicKey == old(PeerPublicKey)
      ensures recoveredKeys == if ok && old(PeerPublicKey) == "" then old(recoveredKeys) + [given]
                               else old(recoveredKeys)
      ensures inboundStream == (old(inboundStream) && (old(status) == Terminated || ok))
    {
      if canonical.Some? {
        PerformOutsideKey(given, canonical.value, status, PeerPublicKey);
      }
      hide Perform;
      if status == Terminated {
        return false;
      }
      if canonical.None? {
        ResetInboundStream();
        return false;
      }
      var valid := ValidatePublicKey(canonical.value);
      if !valid {
        ResetInboundStream();
        return false;
      }
      if |PeerPublicKey| > 0 {
        return true;
      }
      SetKey(given);
      ok := true;
    }

    method SetInboundStream()
      requires Valid()
      modifies this`status, this`inboundStream
      ensures Valid()
      ensures (status, PeerPublicKey) == Perform(SET_INBOUND_STREAM, old(status), old(PeerPublicKey))
      ensures status == if old(status) == Terminated then Terminated else JustConnected
      ensures inboundStream == (old(inboundStream) || old(status) != Terminated)
    {
      if status == Terminated {
        return;
      }
      inboundStream := true;
      CompareAndSwap(NotConnected, JustConnected);
      CompareAndSwap(HandshakeComplete, JustConnected);
    }

    /** `FromStream` sets the stream of a new connection and leaves its status alone. */
    method StartWithStream()
      requires Valid()
      modifies this`inboundStream
      ensures Valid() && inboundStream
    {
      inboundStream := true;
    }

    // ----- the duplicate filter -----

    method IncreamentMsgSpamCount(id: Id) returns (count: uint32)
      modifies this`msgSpamCount
      ensures msgSpamCount == Counted(Window(old(msgSpamCount), []), id).counts
      ensures count == if id in old(msgSpamCount) then (old(msgSpamCount)[id] + 1) % TWO_32 else 1
      ensures msgSpamCount == old(msgSpamCount)[id := count]
    {
      count := if id in msgSpamCount then msgSpamCount[id] else 0;
      count := (count + 1) % TWO_32;
      msgSpamCount := msgSpamCount[id := count];
    }

    method CheckSpamQueueCapacity()
      modifies this`msgSpamCount, receivedMsgId
      ensures if |old(receivedMsgId.queue)| >= threshold && old(receivedMsgId.queue) != []
              then msgSpamCount == old(msgSpamCount) - {old(receivedMsgId.queue)[0]}
                   && receivedMsgId.queue == old(receivedMsgId.queue)[1..]
              else msgSpamCount == old(msgSpamCount) && receivedMsgId.queue == old(receivedMsgId.queue)
    {
      var n := receivedMsgId.GetLen();
      if n >= threshold {
        var oldest := receivedMsgId.Dequeue();
        if oldest.Some? {
          msgSpamCount := msgSpamCount - {oldest.value};
        }
      }
    }

    // ----- the confirm map -----

    method ConfirmationReceived(id: Id)
      modifies this`confirmReceived
      ensures confirmReceived == if id in old(confirmReceived) then old(confirmReceived)[id := true]
                                 else old(confirmReceived)
    {
      if id in confirmReceived {
        confirmReceived := confirmReceived[id := true];
      }
    }

    method CheckConfirmation(id: Id) returns (confirm: bool, ok: bool)
      ensures ok == (id in confirmReceived) && confirm == (ok && confirmReceived[id])
    {
      ok := id in confirmReceived;
      confirm := ok && confirmReceived[id];
    }

    method AddMsgIdToConfirm(id: Id)
      modifies this`confirmReceived
      ensures confirmReceived == old(confirmReceived)[id := false]
    {
      confirmReceived := confirmReceived[id := false];
    }

    method RemoveMsgIdFromConfirm(id: Id)
      modifies this`confirmReceived
      ensures confirmReceived == old(confirmReceived) - {id}
    {
      confirmReceived := confirmReceived - {id};
    }

    // ----- one frame through the receive cycle -----

    /** Counts the frame's id; `new_` says whether the frame goes on. */
    method Filter(id: Id) returns (new_: bool)
      modifies this`msgSpamCount, receivedMsgId
      ensures (Window(msgSpamCount, receivedMsgId.queue), new_)
              == Arrive(threshold, Window(old(msgSpamCount), old(receivedMsgId.queue)), id)
    {
      var count := IncreamentMsgSpamCount(id);
      if count == 1 {
        receivedMsgId.Enqueue(id);
        CheckSpamQueueCapacity();
        new_ := true;
      } else {
        new_ := false;
      }
    }

    method MessageReceived(data: Bytes)
      modifies this`delivered
      ensures delivered == old(delivered) + [N.Prefixed(UniqId, data)]
      ensures |delivered| == |old(delivered)| + 1 && N.CarriesNumber(delivered[|old(delivered)|], UniqId, data)
    {
      N.NumberInFront(UniqId, data);
      var buf := PutLe(UniqId, 4);
      delivered := delivered + [buf + data];
    }

    /** What was passed on when frame `f` was read: a request's data, a plain message's behind the number. */
    predicate PassesOn(before: seq<Bytes>, f: Frame)
      reads this`delivered, this`isBanned
    {
      if f.kind == 3 then delivered == before + [f.data]
      else if f.kind == 0 && !isBanned then
        && |delivered| == |before| + 1 && delivered[..|before|] == before
        && N.CarriesNumber(delivered[|before|], UniqId, f.data)
      else delivered == before
    }

    /** A frame that is new, of one of the kinds that carry or acknowledge messages. */
    method DispatchMessage(f: Frame)
      requires Valid()
      modifies this`confirmReceived, this`delivered, messageQueue, this`model
      ensures Valid() && model == N.Dispatch(old(model), f)
      ensures confirmReceived == if f.kind == 4 && f.msgId in old(confirmReceived)
                                 then old(confirmReceived)[f.msgId := true] else old(confirmReceived)
      ensures messageQueue.queue
              == old(messageQueue.queue) + if f.kind == 3 then [Envelope(ConfirmReply, f.msgId, Some([0]))] else []
      ensures PassesOn(old(delivered), f)
    {
      hide PutLe, N.Prefixed;
      ghost var target := N.Dispatch(model, f);
      if f.kind == CONFIRM_REPLY {
        ConfirmationReceived(f.msgId);
      } else if f.kind == MESSAGE_CONFIRM_REQUEST {
        var reply := Envelope(ConfirmReply, f.msgId, Some([0]));
        messageQueue.Enqueue(reply);
        delivered := delivered + [f.data];
      } else if f.kind == MESSAGE {
        if !isBanned {
          MessageReceived(f.data);
        }
      }
      model := target;
    }

    /** The frame passes the duplicate filter. */
    ghost predicate IsNew(f: Frame)
      reads this`msgSpamCount, receivedMsgId
    {
      Arrive(threshold, Window(msgSpamCount, receivedMsgId.queue), f.msgId).1
    }

    /** The frame's data, once the frame is admitted, is too short for a signature or no list of peers. */
    ghost predicate FramePanics(f: Frame, svc: Services)
      reads this`status, this`isBanned
    {
      || (f.kind == SIGNATURE && status != Terminated && |f.data| < SignatureLength(svc))
      || (f.kind == GET_PEERS_REPLY && !isBanned && svc.peersIn(f.data).None?)
    }

    /** The frame, once admitted, is a list of peers to be registered. */
    ghost predicate ListsPeers(f: Frame, svc: Services)
      reads this`isBanned
    {
      f.kind == GET_PEERS_REPLY && !isBanned && svc.peersIn(f.data).Some?
    }

    /** Counts the frame. */
    method Admit(f: Frame) returns (new_: bool)
      requires Valid()
      modifies this`msgSpamCount, this`model, receivedMsgId
      ensures Valid() && new_ == old(IsNew(f))
      ensures N.ReceiveStep(old(model), f) == if new_ then N.Dispatch(model, f) else model
    {
      hide Arrive, PutLe, N.Dispatch;
      new_ := Filter(f.msgId);
      model := model.(window := Window(msgSpamCount, receivedMsgId.queue), received := model.received + [f]);
      if new_ {
        model := model.(accepted := model.accepted + [f], barred := model.barred + [model.banned]);
      }
    }

    /**
     A frame has been read. The fields that carry messages follow the node; a signature frame
     goes to `HandleSignature`, and a peer list to `handlePeers` unless the peer is banned.
     */
    method ReceiveFrame(f: Frame, svc: Services) returns (panicked: bool)
      requires Valid()
      modifies this`msgSpamCount, this`confirmReceived, this`delivered, this`model, receivedMsgId, messageQueue
      modifies this`status, this`PeerPublicKey, this`inboundStream, this`recoveredKeys, this`peerLists
      ensures Valid() && model == N.ReceiveStep(old(model), f)
      ensures confirmReceived == if old(IsNew(f)) && f.kind == 4 && f.msgId in old(confirmReceived)
                                 then old(confirmReceived)[f.msgId := true] else old(confirmReceived)
      ensures messageQueue.queue
              == old(messageQueue.queue)
                 + if old(IsNew(f)) && f.kind == 3 then [Envelope(ConfirmReply, f.msgId, Some([0]))] else []
      ensures if old(IsNew(f)) then PassesOn(old(delivered), f) else delivered == old(delivered)
      ensures panicked <==> old(IsNew(f)) && old(FramePanics(f, svc))
      ensures (status, PeerPublicKey) == if old(IsNew(f)) && f.kind == SIGNATURE && SignedKey(svc, f.data).Some?
                then Perform(SignatureRoutine(SignedKey(svc, f.data).value), old(status), old(PeerPublicKey))
                else (old(status), old(PeerPublicKey))
      ensures recoveredKeys == if old(IsNew(f)) && f.kind == SIGNATURE
                                  && KeyAccepted(svc, f.data, old(status), old(PeerPublicKey))
                               then old(recoveredKeys) + [PeerPublicKey] else old(recoveredKeys)
      ensures inboundStream == (old(inboundStream)
                                && (!old(IsNew(f)) || f.kind != SIGNATURE || old(status) == Terminated || panicked
                                    || KeyAccepted(svc, f.data, old(status), old(PeerPublicKey))))
      ensures peerLists == if old(IsNew(f)) && ListsPeers(f, svc) then old(peerLists) + [svc.peersIn(f.data).value]
                           else old(peerLists)
    {
      hide Perform, SignedKey, IsNew, Valid, N.ReceiveStep;
      panicked := false;
      var new_ := Admit(f);
      if !new_ {
        return;
      }
      OtherKindsDoNothing(model, f);
      if f.kind == SIGNATURE {
        panicked := HandleSignature(f.data, svc);
      } else if f.kind == GET_PEERS_REPLY {
        if !isBanned {
          panicked := HandlePeers(f.data, svc);
        }
      } else {
        DispatchMessage(f);
      }
    }

    method HandlePeers(data: Bytes, svc: Services) returns (panicked: bool)
      requires Valid()
      modifies this`peerLists
      ensures Valid() && panicked == svc.peersIn(data).None?
      ensures peerLists == if panicked then old(peerLists) else old(peerLists) + [svc.peersIn(data).value]
    {
      var peers := svc.peersIn(data);
      if peers.None? {
        return true;
      }
      peerLists := peerLists + [peers.value];
      panicked := false;
    }

    // ----- one pass of the send cycle -----

    method ClearHand()
      modifies this`msgToSend, this`msgKind, this`msgId
      ensures Held() == NOTHING_HELD
    {
      msgToSend := None;
      msgKind := Message;
      msgId := 0;
    }

    /** The stream was missing or the write failed: keep the envelope, or give everything up. */
    method HandleFailure(o: Outcome)
      requires Matches() && model.pc.Failed?
      modifies this`msgToSend, this`msgKind, this`msgId, this`droppedMessages, this`model, messageQueue
      ensures Matches() && model == AfterFailure(old(model), o)
      ensures Held() == if !o.giveUp then old(Held()) else NOTHING_HELD
      ensures !o.giveUp ==> messageQueue.queue == old(messageQueue.queue) && droppedMessages == old(droppedMessages)
      ensures o.giveUp ==>
                messageQueue.queue == [] && droppedMessages == old(droppedMessages) + |old(messageQueue.queue)| + 1
    {
      if !o.giveUp {
        model := N.Step(model, N.Retry);
      } else {
        var n := messageQueue.GetLen();
        droppedMessages := droppedMessages + (n + 1);
        messageQueue.Clear();
        ClearHand();
        model := N.Step(model, N.GiveUp);
      }
    }

    /** The envelope in hand is a Consensus envelope that has been acknowledged. */
    predicate IsSettled()
      reads this`msgKind, this`msgId, this`confirmReceived
    {
      msgKind == Consensus && msgId in confirmReceived && confirmReceived[msgId]
    }

    /** There is no stream, or the write fails. */
    predicate Fails(o: Outcome)
      reads this`msgKind, this`msgId, this`confirmReceived
    {
      !o.hasStream || (!IsSettled() && !o.writeOk)
    }

    /** After the confirm map has been read: let the envelope go, or register it and build its frame. */
    method SettleConsensus(confirm: bool, ok: bool) returns (frame: Option<Frame>)
      requires Matches() && model.pc.Checked? && model.pc.confirm == confirm && model.pc.ok == ok
      requires msgToSend.Some? && msgKind == Consensus
      modifies this`msgToSend, this`msgKind, this`msgId, this`confirmReceived, this`model
      ensures Matches() && model == N.Step(old(model), N.Settle)
      ensures frame == if ok && confirm then None else Some(Frame(3, old(msgId), old(msgToSend).value))
      ensures confirmReceived == if !ok then old(confirmReceived)[old(msgId) := false]
                                 else if confirm then old(confirmReceived) - {old(msgId)} else old(confirmReceived)
      ensures Held() == if frame.Some? then old(Held()) else NOTHING_HELD
      ensures frame.None? ==> model.pc.AtHead?
      ensures frame.Some? ==> model.pc.Prepared? && N.Outgoing(model.pc.t) == [frame.value]
    {
      model := N.Step(model, N.Settle);
      if ok && confirm {
        RemoveMsgIdFromConfirm(msgId);
        ClearHand();
        return None;
      }
      frame := Some(Frame(MESSAGE_CONFIRM_REQUEST, msgId, msgToSend.value));
      if !ok {
        AddMsgIdToConfirm(msgId);
      }
    }

    /**
     Builds the frame for the envelope in hand; a Consensus envelope already confirmed is let go
     instead, and one that is new is registered first.
     */
    method PrepareFrame() returns (frame: Option<Frame>)
      requires Matches() && model.pc.Ready? && msgToSend.Some?
      modifies this`msgToSend, this`msgKind, this`msgId, this`confirmReceived, this`model
      ensures Matches()
      ensures model == (var checked := N.Step(old(model), N.Check);
                        if checked.pc.Checked? then N.Step(checked, N.Settle) else checked)
      ensures old(msgKind) == Message ==> frame == Some(Frame(0, old(msgId), old(msgToSend).value))
      ensures old(msgKind) == ConfirmReply ==> frame == Some(Frame(4, old(msgId), old(msgToSend).value))
      ensures old(msgKind) == Consensus ==>
                frame == if old(IsSettled()) then None else Some(Frame(3, old(msgId), old(msgToSend).value))
      ensures confirmReceived == if old(IsSettled()) then old(confirmReceived) - {old(msgId)}
                                 else if old(msgKind) != Consensus || old(msgId) in old(confirmReceived)
                                 then old(confirmReceived) else old(confirmReceived)[old(msgId) := false]
      ensures Held() == if frame.Some? then old(Held()) else NOTHING_HELD
      ensures frame.None? ==> model.pc.AtHead?
      ensures frame.Some? ==> model.pc.Prepared? && N.Outgoing(model.pc.t) == [frame.value]
    {
      hide N.SettleStep;
      if msgKind == Consensus {
        var confirm, ok := CheckConfirmation(msgId);
        model := N.Step(model, N.Check);
        frame := SettleConsensus(confirm, ok);
      } else {
        model := N.Step(model, N.Check);
        frame := Some(Frame(if msgKind == Message then MESSAGE else CONFIRM_REPLY, msgId, msgToSend.value));
      }
    }

    /** The frame is on the stream; anything but a Consensus envelope is done with. */
    method FinishWrite(frame: Frame)
      requires Matches() && model.pc.Prepared? && N.Outgoing(model.pc.t) == [frame]
      modifies this`msgToSend, this`msgKind, this`msgId, this`wire, this`model
      ensures Matches() && model == N.Step(old(model), N.WriteOk)
      ensures wire == old(wire) + [frame]
      ensures Held() == if old(msgKind) == Consensus then old(Held()) else NOTHING_HELD
      ensures model.pc.Written? <==> old(msgKind) == Consensus
      ensures model.pc.Written? ==> msgToSend.Some?
    {
      hide N.Outgoing;
      wire := wire + [frame];
      if msgKind != Consensus {
        ClearHand();
      }
      model := N.Step(model, N.WriteOk);
    }

    /** A written Consensus envelope goes back to the end of the queue. */
    method QueueAgain()
      requires Matches() && model.pc.Written? && msgToSend.Some?
      modifies this`msgToSend, this`msgKind, this`msgId, this`model, messageQueue
      ensures Matches() && model == N.Step(old(model), N.Requeue)
      ensures messageQueue.queue == old(messageQueue.queue) + [Envelope(old(msgKind), old(msgId), old(msgToSend))]
      ensures Held() == NOTHING_HELD
    {
      messageQueue.Enqueue(Envelope(msgKind, msgId, msgToSend));
      ClearHand();
      model := N.Step(model, N.Requeue);
    }

    /** Writes the frame and, if that went well, queues a Consensus envelope again. */
    method WriteFrame(frame: Frame, o: Outcome)
      requires Matches() && model.pc.Prepared? && N.Outgoing(model.pc.t) == [frame]
      modifies this`msgToSend, this`msgKind, this`msgId, this`droppedMessages, this`wire, this`model, messageQueue
      ensures Matches() && model == AfterWrite(old(model), o)
      ensures Held() == if !o.writeOk && !o.giveUp then old(Held()) else NOTHING_HELD
      ensures wire == old(wire) + if o.writeOk || o.reached then [frame] else []
      ensures messageQueue.queue
              == if o.writeOk && old(msgKind) == Consensus
                 then old(messageQueue.queue) + [Envelope(Consensus, old(msgId), old(msgToSend))]
                 else if !o.writeOk && o.giveUp then [] else old(messageQueue.queue)
      ensures droppedMessages
              == old(droppedMessages) + if !o.writeOk && o.giveUp then |old(messageQueue.queue)| + 1 else 0
    {
      hide N.Outgoing, N.WriteOkStep, AfterFailure;
      if o.writeOk {
        var again := msgKind == Consensus;
        FinishWrite(frame);
        if again {
          QueueAgain();
        }
      } else {
        if o.reached {
          wire := wire + [frame];
        }
        model := N.Step(model, N.WriteFail(o.reached));
        HandleFailure(o);
      }
    }

    method AttemptSend(o: Outcome)
      requires Matches() && model.pc.Ready? && msgToSend.Some?
      modifies this`msgToSend, this`msgKind, this`msgId, this`confirmReceived, this`droppedMessages, this`wire,
               this`model, messageQueue
      ensures Matches() && model == Attempt(old(model), o)
      ensures wire == old(wire) +
                      if o.hasStream && !old(IsSettled()) && (o.writeOk || o.reached)
                      then [Frame(match old(msgKind) case Message => 0 case Consensus => 3 case ConfirmReply => 4,
                                  old(msgId), old(msgToSend).value)] else []
      ensures confirmReceived == if o.hasStream && old(IsSettled()) then old(confirmReceived) - {old(msgId)}
                                 else if !o.hasStream || old(msgKind) != Consensus
                                         || old(msgId) in old(confirmReceived)
                                 then old(confirmReceived) else old(confirmReceived)[old(msgId) := false]
      ensures Held() == if old(Fails(o)) && !o.giveUp then old(Held()) else NOTHING_HELD
      ensures messageQueue.queue
              == if old(Fails(o)) then (if o.giveUp then [] else old(messageQueue.queue))
                 else old(messageQueue.queue) + if old(msgKind) == Consensus && !old(IsSettled())
                                                then [Envelope(Consensus, old(msgId), old(msgToSend))] else []
      ensures droppedMessages
              == old(droppedMessages) + if old(Fails(o)) && o.giveUp then |old(messageQueue.queue)| + 1 else 0
    {
      hide N.Outgoing, AfterWrite;
      if o.hasStream {
        var frame := PrepareFrame();
        if frame.Some? {
          WriteFrame(frame.value, o);
        }
      } else {
        model := N.Step(model, N.FindNoStream);
        HandleFailure(o);
      }
    }

    /** Takes the next envelope; `blocked` when the queue is empty, `ended` at the terminating one. */
    method TakeNext() returns (blocked: bool, ended: bool)
      requires Matches() && model.pc == N.Running(None)
      modifies this`msgToSend, this`msgKind, this`msgId, this`model, messageQueue
      ensures Matches()
      ensures blocked == (old(messageQueue.queue) == []) && (blocked ==> messageQueue.queue == [])
      ensures !blocked ==> messageQueue.queue == old(messageQueue.queue)[1..]
      ensures !blocked ==> var head := old(messageQueue.queue)[0];
                           && ended == (head.data == None)
                           && (!ended ==> Held() == (head.data, head.kind, head.msgId))
      ensures blocked == (old(model).queue == []) && (blocked ==> model == old(model) && !ended)
      ensures !blocked ==> model == N.Step(old(model), N.Dequeue) && ended == model.pc.Finished?
      ensures !blocked && !ended ==> model.pc.Ready? && msgToSend.Some?
    {
      var value := messageQueue.DequeueOrWait();
      if value.None? {
        return true, false;
      }
      ended := value.value.data == None;
      blocked := false;
      model := N.Step(model, N.Dequeue);
      if !ended {
        msgToSend := value.value.data;
        msgKind := value.value.kind;
        msgId := value.value.msgId;
      }
    }

    /** From the point where the stream is known to be there. */
    method Proceed(o: Outcome)
      requires Matches() && model.pc.Running?
      modifies this`msgToSend, this`msgKind, this`msgId, this`confirmReceived, this`droppedMessages, this`wire,
               this`model, this`asleep, this`sendCycleFinished, messageQueue
      ensures Matches() && model == Connected(old(model), o)
      ensures asleep == model.pc.Running? && sendCycleFinished == model.pc.Finished?
    {
      hide Attempt;
      asleep, sendCycleFinished := false, false;
      if msgToSend == None {
        var blocked, ended := TakeNext();
        if blocked {
          asleep := true;
          return;
        }
        if ended {
          sendCycleFinished := true;
          return;
        }
      } else {
        model := N.Step(model, N.TakeHand);
      }
      AttemptSend(o);
    }

    /** One iteration of the loop in `sendMessageCycle`. */
    method SendPass(o: Outcome)
      requires Valid()
      modifies this`msgToSend, this`msgKind, this`msgId, this`confirmReceived, this`droppedMessages, this`wire,
               this`model, this`asleep, this`sendCycleFinished, messageQueue
      ensures Valid() && model == Pass(old(model), o)
      ensures old(sendCycleFinished) || (!old(asleep) && (status == Terminated || !o.connected)) ==>
                && Held() == old(Held()) && messageQueue.queue == old(messageQueue.queue) && wire == old(wire)
                && confirmReceived == old(confirmReceived) && droppedMessages == old(droppedMessages)
                && sendCycleFinished == (old(sendCycleFinished) || status == Terminated)
    {
      hide Connected;
      if sendCycleFinished {
        return;
      }
      if !asleep {
        model := N.Step(model, N.EnterPass);
        if status == Terminated {
          sendCycleFinished := true;
          return;
        }
        if !o.connected {
          model := N.Step(model, N.NoStreamYet);
          return;
        }
      }
      Proceed(o);
    }

    /** The send cycle, for as long as the environment's outcomes last. */
    method SendMessageCycle(outcomes: seq<Outcome>)
      requires Valid()
      modifies this`msgToSend, this`msgKind, this`msgId, this`confirmReceived, this`droppedMessages, this`wire,
               this`model, this`asleep, this`sendCycleFinished, messageQueue
      ensures Valid() && model == Passes(old(model), outcomes)
    {
      hide Pass;
      var i := 0;
      while i < |outcomes|
        invariant 0 <= i <= |outcomes|
        invariant Valid() && model == Passes(old(model), outcomes[..i])
      {
        SendPass(outcomes[i]);
        assert outcomes[..i + 1][..i] == outcomes[..i];
        i := i + 1;
      }
      assert outcomes[..i] == outcomes;
    }
  }
}

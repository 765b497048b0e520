/** What one end knows about acknowledgements, and how its duplicate filter is used. */
module ProtocolLaws {
  import opened Bytes
  import opened FrameCodec
  import opened Envelopes
  import opened SpamWindow
  import opened Node
  import opened NodeLaws

  /** Some frame of `fs` has this kind and id. */
  predicate Has(fs: seq<Frame>, kind: byte, id: Id) {
    exists f :: f in fs && f.kind == kind && f.msgId == id
  }

  lemma HasMore(fs: seq<Frame>, gs: seq<Frame>, kind: byte, id: Id)
    requires fs <= gs && Has(fs, kind, id)
    ensures Has(gs, kind, id)
  {
    var f :| f in fs && f.kind == kind && f.msgId == id;
    assert f in gs;
  }

  function RetiredIds(n: Node): set<Id> {
    set t | t in n.retired :: t.env.msgId
  }

  // ----- the envelope in hand -----

  predicate HandSound(n: Node) {
    && (forall t :: t in Hand(n.pc) ==> t.env.data.Some?)
    && (n.pc.Checked? || n.pc.Written? ==> n.pc.t.env.kind == Consensus)
    && (forall t :: t in n.retired ==> t.env.kind == Consensus && t.env.data.Some?)
  }

  lemma SettleHandSound(n: Node)
    requires HandSound(n) && Enabled(n, Settle)
    ensures HandSound(Step(n, Settle))
  {
  }

  lemma StepHandSound(n: Node, a: Action)
    requires HandSound(n) && Enabled(n, a)
    ensures HandSound(Step(n, a))
  {
    hide ReceiveStep, Outgoing, SettleStep, GiveUpStep;
    match a
    case Settle => SettleHandSound(n);
    case GiveUp => GiveUpHandSound(n);
    case Receive(f) => ReceiveFrame(n, f);
    case _ =>
  }

  lemma GiveUpHandSound(n: Node)
    requires HandSound(n) && Enabled(n, GiveUp)
    ensures HandSound(Step(n, GiveUp))
  {
  }

  // ----- every frame sent carries an envelope that was put -----

  /**
   A plain frame, a request and an acknowledgement on the wire have the id and the data of a Message,
   a Consensus and an acknowledging envelope that was put; other frames are signatures and peer lists.
   */
  predicate Backed(n: Node, f: Frame) {
    match f.kind
    case 0 => Envelope(Message, f.msgId, Some(f.data)) in n.put
    case 3 => Envelope(Consensus, f.msgId, Some(f.data)) in n.put
    case 4 => Envelope(ConfirmReply, f.msgId, Some(f.data)) in n.put
    case kind => kind == 1 || kind == 2
  }

  ghost predicate AllBacked(n: Node) {
    forall f :: f in n.sent ==> Backed(n, f)
  }

  lemma BackedMore(n: Node, m: Node, f: Frame)
    requires n.put <= m.put && Backed(n, f)
    ensures Backed(m, f)
  {
    assert forall e :: e in n.put ==> e in m.put;
  }

  lemma OutgoingBacked(n: Node, t: Ticket)
    requires Known(n, t) && t.env.data.Some?
    ensures Backed(n, FrameFor(t.env))
  {
    assert n.put[t.no] == t.env;
  }

  lemma PutOnlyGrows(n: Node, a: Action)
    requires Enabled(n, a)
    ensures n.put <= Step(n, a).put
    ensures a.WriteOk? || a.WriteFail? || a.Control? || Step(n, a).sent == n.sent
    ensures a.WriteOk? || a.WriteFail? ==>
              Step(n, a).sent == n.sent || Step(n, a).sent == n.sent + Outgoing(n.pc.t)
  {
    hide ReceiveStep, Outgoing;
    if a.Receive? {
      ReceiveFrame(n, a.f);
    }
  }

  lemma StepBacked(n: Node, a: Action)
    requires AllBacked(n) && Conserved(n) && HandSound(n) && Enabled(n, a)
    ensures AllBacked(Step(n, a))
  {
    PutOnlyGrows(n, a);
    if a.WriteOk? || a.WriteFail? {
      InHandOnce(n, n.pc.t);
      OutgoingBacked(n, n.pc.t);
    }
    hide Conserved, HandSound, Backed, Known;
    var m := Step(n, a);
    forall f | f in m.sent ensures Backed(m, f) {
      if f in n.sent {
        BackedMore(n, m, f);
      } else if a.Control? {
        ControlBacked(m, f);
      } else {
        assert f in Outgoing(n.pc.t);
        BackedMore(n, m, f);
      }
    }
  }

  lemma ControlBacked(n: Node, f: Frame)
    requires f.kind == SIGNATURE || f.kind == GET_PEERS_REPLY
    ensures Backed(n, f)
  {
  }

  // ----- every envelope let go as sent has been sent -----

  /** The frame an envelope goes out as: its id, its data, and the byte of its kind. */
  predicate WentOut(n: Node, e: Envelope) {
    e.data.Some?
    && Frame(match e.kind case Message => 0 case Consensus => 3 case ConfirmReply => 4, e.msgId, e.data.value) in n.sent
  }

  /**
   What is written, and what waits again after having been taken, has gone out; written envelopes are
   plain or acknowledging ones.
   */
  ghost predicate AllWentOut(n: Node) {
    && (forall t :: t in n.written ==> WentOut(n, t.env) && t.env.kind != Consensus)
    && (n.pc.Written? ==> WentOut(n, n.pc.t.env))
    && (forall t :: t in n.queue && t in n.taken ==> WentOut(n, t.env))
  }

  lemma WentOutMore(n: Node, m: Node, e: Envelope)
    requires WentOut(n, e) && n.sent <= m.sent
    ensures WentOut(m, e)
  {
    assert forall f :: f in n.sent ==> f in m.sent;
  }

  /** Queue, taken and written envelopes are the same, or were on the way. */
  lemma SameWentOut(n: Node, m: Node)
    requires AllWentOut(n) && n.sent <= m.sent
    requires forall t :: t in m.written ==> t in n.written
    requires forall t :: t in m.queue && t in m.taken ==>
               (t in n.queue && t in n.taken) || (n.pc.Written? && t == n.pc.t)
    requires m.pc.Written? ==> m.pc == n.pc
    ensures AllWentOut(m)
  {
    hide WentOut;
    forall t | t in m.written ensures WentOut(m, t.env) {
      WentOutMore(n, m, t.env);
    }
    forall t | t in m.queue && t in m.taken ensures WentOut(m, t.env) {
      WentOutMore(n, m, t.env);
    }
    if m.pc.Written? {
      WentOutMore(n, m, n.pc.t.env);
    }
  }

  lemma WriteOkWentOut(n: Node)
    requires AllWentOut(n) && HandSound(n) && Enabled(n, WriteOk)
    ensures AllWentOut(WriteOkStep(n))
  {
    var m := WriteOkStep(n);
    assert WentOut(m, n.pc.t.env);
    hide WentOut;
    forall e | WentOut(n, e) ensures WentOut(m, e) {
      WentOutMore(n, m, e);
    }
  }

  lemma DequeueWentOut(n: Node)
    requires AllWentOut(n) && Conserved(n) && Enabled(n, Dequeue)
    ensures AllWentOut(DequeueStep(n))
  {
    var t := n.queue[0];
    EachInOnePlace(n, t);
    CountTail(n.queue);
    assert t !in n.queue[1..] by {
      assert Count([t], t) == 1;
    }
    SameWentOut(n, DequeueStep(n));
  }

  lemma StepWentOut(n: Node, a: Action)
    requires AllWentOut(n) && Conserved(n) && HandSound(n) && Enabled(n, a)
    requires forall t :: t in n.taken ==> t.no < |n.put|
    ensures AllWentOut(Step(n, a))
  {
    if a.WriteOk? {
      WriteOkWentOut(n);
    } else if a.Dequeue? {
      DequeueWentOut(n);
    } else {
      hide Conserved, HandSound, AllWentOut;
      OthersWentOut(n, a);
      SameWentOut(n, Step(n, a));
    }
  }

  lemma OthersWentOut(n: Node, a: Action)
    requires Enabled(n, a) && !a.WriteOk? && !a.Dequeue?
    requires forall t :: t in n.taken ==> t.no < |n.put|
    ensures var m := Step(n, a);
            && n.sent <= m.sent && m.written == n.written && m.taken == n.taken && (m.pc.Written? ==> m.pc == n.pc)
            && forall t :: t in m.queue && t in m.taken ==> t in n.queue || (n.pc.Written? && t == n.pc.t)
  {
    hide ReceiveStep, Outgoing, CheckStep, SettleStep, GiveUpStep;
    match a
    case Receive(f) =>
      ReceiveFrame(n, f);
      ReceiveQueue(n, f);
    case Check => CheckFrame(n);
    case Settle => SettleFrame(n);
    case GiveUp => GiveUpFrame(n);
    case _ =>
  }

  lemma ReceiveQueue(n: Node, f: Frame)
    ensures var m := ReceiveStep(n, f);
            m.queue == n.queue || m.queue == n.queue + [Ticket(|n.put|, ReplyTo(f))]
  {
    hide Arrive, Prefixed;
  }

  lemma CheckFrame(n: Node)
    requires Enabled(n, Check)
    ensures var m := CheckStep(n);
            m.sent == n.sent && m.written == n.written && m.taken == n.taken && m.queue == n.queue && !m.pc.Written?
  {
  }

  lemma SettleFrame(n: Node)
    requires Enabled(n, Settle)
    ensures var m := SettleStep(n);
            m.sent == n.sent && m.written == n.written && m.taken == n.taken && m.queue == n.queue && !m.pc.Written?
  {
  }

  lemma GiveUpFrame(n: Node)
    requires Enabled(n, GiveUp)
    ensures var m := GiveUpStep(n);
            m.sent == n.sent && m.written == n.written && m.taken == n.taken && m.queue == [] && !m.pc.Written?
  {
  }

  // ----- acknowledgements are what was accepted -----

  /** The acknowledging envelopes among those put, in order. */
  function Replies(put: seq<Envelope>): seq<Envelope> {
    if put == [] then []
    else
      var k := |put| - 1;
      Replies(put[..k]) + if put[k].kind == ConfirmReply then [put[k]] else []
  }

  /** One acknowledgement for each request among `fs`: its id, and one zero byte. */
  function RepliesDue(fs: seq<Frame>): seq<Envelope> {
    if fs == [] then []
    else
      var k := |fs| - 1;
      RepliesDue(fs[..k]) + if fs[k].kind == 3 then [Envelope(ConfirmReply, fs[k].msgId, Some([0]))] else []
  }

  ghost predicate RepliesExact(n: Node) {
    Replies(n.put) == RepliesDue(n.accepted)
  }

  lemma RepliesMore(put: seq<Envelope>, e: Envelope)
    ensures Replies(put + [e]) == Replies(put) + if e.kind == ConfirmReply then [e] else []
  {
    assert (put + [e])[..|put|] == put;
  }

  lemma RepliesDueMore(fs: seq<Frame>, f: Frame)
    ensures RepliesDue(fs + [f])
            == RepliesDue(fs) + if f.kind == 3 then [Envelope(ConfirmReply, f.msgId, Some([0]))] else []
  {
    assert (fs + [f])[..|fs|] == fs;
  }

  lemma ReceiveRepliesExact(n: Node, f: Frame)
    requires RepliesExact(n)
    ensures RepliesExact(ReceiveStep(n, f))
  {
    hide Arrive, Prefixed, Replies, RepliesDue;
    RepliesMore(n.put, Envelope(ConfirmReply, f.msgId, Some([0])));
    RepliesDueMore(n.accepted, f);
  }

  lemma StepRepliesExact(n: Node, a: Action)
    requires RepliesExact(n) && Enabled(n, a)
    ensures RepliesExact(Step(n, a))
  {
    hide FromOutside, ReceiveStep, DequeueStep, CheckStep, SettleStep, WriteOkStep, GiveUpStep, Outgoing;
    hide Replies, RepliesDue;
    match a
    case Receive(f) => ReceiveRepliesExact(n, f);
    case Send(e) => RepliesMore(n.put, e);
    case PutTerminator(id) => RepliesMore(n.put, Envelope(Message, id, None));
    case _ => SamePutAccepted(n, a);
  }

  lemma SamePutAccepted(n: Node, a: Action)
    requires Enabled(n, a) && !a.Receive? && !a.Send? && !a.PutTerminator?
    ensures Step(n, a).put == n.put && Step(n, a).accepted == n.accepted
  {
    ReceiverUntouched(n, a);
    hide ReceiveStep, DequeueStep, CheckStep, SettleStep, WriteOkStep, GiveUpStep, Outgoing;
    match a
    case Dequeue => SamePut(n, a);
    case Check => SamePut(n, a);
    case Settle => SamePut(n, a);
    case WriteOk => SamePut(n, a);
    case GiveUp => SamePut(n, a);
    case _ =>
  }

  // ----- acknowledgements are earned -----

  /** An acknowledging envelope is only ever put for an accepted request. */
  ghost predicate AcksEarned(n: Node) {
    forall i :: 0 <= i < |n.put| && n.put[i].kind == ConfirmReply ==>
      Has(n.accepted, MESSAGE_CONFIRM_REQUEST, n.put[i].msgId)
  }

  lemma ReceiveAcksEarned(n: Node, f: Frame)
    requires AcksEarned(n)
    ensures AcksEarned(ReceiveStep(n, f))
  {
    hide Arrive, Prefixed, Has;
    var m := ReceiveStep(n, f);
    forall i | 0 <= i < |m.put| && m.put[i].kind == ConfirmReply
      ensures Has(m.accepted, MESSAGE_CONFIRM_REQUEST, m.put[i].msgId)
    {
      if i < |n.put| {
        HasMore(n.accepted, m.accepted, MESSAGE_CONFIRM_REQUEST, m.put[i].msgId);
      } else {
        HasAppended(n.accepted, f);
      }
    }
  }

  lemma HasAppended(fs: seq<Frame>, f: Frame)
    ensures Has(fs + [f], f.kind, f.msgId)
  {
    assert (fs + [f])[|fs|] == f;
  }

  lemma StepAcksEarned(n: Node, a: Action)
    requires AcksEarned(n) && Enabled(n, a)
    ensures AcksEarned(Step(n, a))
  {
    hide ReceiveStep, Outgoing, Has;
    if a.Receive? {
      ReceiveAcksEarned(n, a.f);
    }
  }

  /** A confirmation in the map, or read from it, or acted on, comes from an accepted acknowledgement. */
  ghost predicate ConfirmsEarned(n: Node) {
    && (forall id :: id in n.confirm && n.confirm[id] ==> Has(n.accepted, CONFIRM_REPLY, id))
    && (n.pc.Checked? && n.pc.confirm ==> Has(n.accepted, CONFIRM_REPLY, n.pc.t.env.msgId))
    && (forall t :: t in n.retired ==> Has(n.accepted, CONFIRM_REPLY, t.env.msgId))
  }

  lemma ReceiveConfirmsEarned(n: Node, f: Frame)
    requires ConfirmsEarned(n)
    ensures ConfirmsEarned(ReceiveStep(n, f))
  {
    var m := ReceiveStep(n, f);
    ReceiveFrame(n, f);
    hide Arrive, Prefixed, Has, ReplyTo;
    HasAppended(n.accepted, f);
    forall id | Has(n.accepted, CONFIRM_REPLY, id) ensures Has(m.accepted, CONFIRM_REPLY, id) {
      HasMore(n.accepted, m.accepted, CONFIRM_REPLY, id);
    }
  }

  lemma CheckConfirmsEarned(n: Node)
    requires ConfirmsEarned(n) && Enabled(n, Check)
    ensures ConfirmsEarned(Step(n, Check))
  {
    hide Has;
  }

  lemma SettleConfirmsEarned(n: Node)
    requires ConfirmsEarned(n) && Enabled(n, Settle)
    ensures ConfirmsEarned(Step(n, Settle))
  {
    hide Has;
  }

  lemma StepConfirmsEarned(n: Node, a: Action)
    requires ConfirmsEarned(n) && Enabled(n, a)
    ensures ConfirmsEarned(Step(n, a))
  {
    hide ReceiveStep, Outgoing, Has, CheckStep, SettleStep;
    match a
    case Check => CheckConfirmsEarned(n);
    case Settle => SettleConfirmsEarned(n);
    case Receive(f) => ReceiveConfirmsEarned(n, f);
    case _ =>
  }

  // ----- registration comes before any request is on the wire -----

  ghost predicate RequestsRegistered(n: Node) {
    && (forall f :: f in n.sent && f.kind == MESSAGE_CONFIRM_REQUEST ==>
          f.msgId in n.confirm.Keys + RetiredIds(n))
    && (n.pc.Prepared? && n.pc.t.env.kind == Consensus ==> n.pc.t.env.msgId in n.confirm.Keys)
    && (n.pc.Checked? && n.pc.ok ==> n.pc.t.env.msgId in n.confirm.Keys)
  }

  lemma SettleRegistered(n: Node)
    requires RequestsRegistered(n) && Enabled(n, Settle)
    ensures RequestsRegistered(Step(n, Settle))
  {
    var m := Step(n, Settle);
    assert n.confirm.Keys + RetiredIds(n) <= m.confirm.Keys + RetiredIds(m);
  }

  lemma WriteRegistered(n: Node, a: Action)
    requires RequestsRegistered(n) && Enabled(n, a) && (a.WriteOk? || a.WriteFail?)
    ensures RequestsRegistered(Step(n, a))
  {
  }

  lemma CheckRegistered(n: Node)
    requires RequestsRegistered(n) && Enabled(n, Check)
    ensures RequestsRegistered(CheckStep(n))
  {
  }

  lemma GiveUpRegistered(n: Node)
    requires RequestsRegistered(n) && Enabled(n, GiveUp)
    ensures RequestsRegistered(GiveUpStep(n))
  {
  }

  lemma StepRegistered(n: Node, a: Action)
    requires RequestsRegistered(n) && Enabled(n, a)
    ensures RequestsRegistered(Step(n, a))
  {
    hide ReceiveStep, WriteOkStep, Outgoing, SettleStep, CheckStep, GiveUpStep;
    match a
    case Check => CheckRegistered(n);
    case GiveUp => GiveUpRegistered(n);
    case Settle => SettleRegistered(n);
    case WriteOk => WriteRegistered(n, a);
    case WriteFail(_) => WriteRegistered(n, a);
    case Receive(f) => ReceiveFrame(n, f);
    case _ =>
  }

  // ----- with distinct ids, the map holds exactly the ids attempted and not retired -----

  /** No two Consensus envelopes put on this connection have the same id. */
  ghost predicate DistinctIds(put: seq<Envelope>) {
    forall i, j :: 0 <= i < j < |put| && put[i].kind == Consensus && put[j].kind == Consensus ==>
      put[i].msgId != put[j].msgId
  }

  /** The id looked up but not registered yet. */
  function Pending(n: Node): set<Id> {
    if n.pc.Checked? && !n.pc.ok then {n.pc.t.env.msgId} else {}
  }

  ghost predicate MapExact(n: Node) {
    && n.confirm.Keys == n.asked - RetiredIds(n) - Pending(n)
    && (n.pc.Checked? ==> n.pc.t.env.msgId in n.asked - RetiredIds(n) && (n.pc.ok <==> n.pc.t.env.msgId in n.confirm))
  }

  /** A Consensus envelope in hand has not been retired under its id. */
  lemma InHandNotRetired(n: Node, t: Ticket)
    requires Conserved(n) && HandSound(n) && DistinctIds(n.put)
    requires t in Hand(n.pc) && t.env.kind == Consensus
    ensures t.env.msgId !in RetiredIds(n)
  {
    if t.env.msgId in RetiredIds(n) {
      var r :| r in n.retired && r.env.msgId == t.env.msgId;
      QueuedIsKnown(n);
      InHandOnce(n, t);
    }
  }

  lemma CheckMapExact(n: Node)
    requires MapExact(n) && Conserved(n) && HandSound(n) && DistinctIds(n.put) && Enabled(n, Check)
    ensures MapExact(Step(n, Check))
  {
    if n.pc.t.env.kind == Consensus {
      InHandNotRetired(n, n.pc.t);
    }
    hide Conserved, DistinctIds, HandSound;
  }

  lemma SettleMapExact(n: Node)
    requires MapExact(n) && Conserved(n) && HandSound(n) && DistinctIds(n.put) && Enabled(n, Settle)
    ensures MapExact(Step(n, Settle))
  {
    InHandNotRetired(n, n.pc.t);
    hide Conserved, DistinctIds, HandSound;
    if n.pc.ok && n.pc.confirm {
      assert RetiredIds(Step(n, Settle)) == RetiredIds(n) + {n.pc.t.env.msgId};
    }
  }

  lemma StepMapExact(n: Node, a: Action)
    requires MapExact(n) && Conserved(n) && HandSound(n) && DistinctIds(n.put) && Enabled(n, a)
    ensures MapExact(Step(n, a))
  {
    hide ReceiveStep, Outgoing, CheckStep, SettleStep, Conserved, DistinctIds, HandSound;
    match a
    case Check => CheckMapExact(n);
    case Settle => SettleMapExact(n);
    case Receive(f) => ReceiveFrame(n, f);
    case _ =>
  }

  // ----- an accepted acknowledgement marks its id -----

  /** An id in the map is marked if an acknowledgement of it was accepted. */
  ghost predicate AcksMarked(n: Node) {
    forall id :: id in n.confirm && Has(n.accepted, 4, id) ==> n.confirm[id]
  }

  /** Acknowledgements accepted are for ids in the map or retired. */
  ghost predicate AcksExpected(n: Node) {
    forall f :: f in n.accepted && f.kind == 4 ==> f.msgId in n.confirm.Keys + RetiredIds(n)
  }

  lemma HasOne(fs: seq<Frame>, f: Frame, kind: byte, id: Id)
    ensures Has(fs + [f], kind, id) <==> Has(fs, kind, id) || (f.kind == kind && f.msgId == id)
  {
    if Has(fs, kind, id) {
      HasMore(fs, fs + [f], kind, id);
    }
    if f.kind == kind && f.msgId == id {
      HasAppended(fs, f);
    }
  }

  lemma ReceiveAcksMarked(n: Node, f: Frame)
    requires AcksMarked(n)
    ensures AcksMarked(ReceiveStep(n, f))
  {
    hide Arrive, Prefixed, ReplyTo, Has;
    forall id ensures Has(n.accepted + [f], 4, id) <==> Has(n.accepted, 4, id) || (f.kind == 4 && f.msgId == id) {
      HasOne(n.accepted, f, 4, id);
    }
  }

  lemma SettleAcksMarked(n: Node)
    requires AcksMarked(n) && AcksExpected(n) && Conserved(n) && HandSound(n) && MapExact(n) && DistinctIds(n.put)
    requires Enabled(n, Settle)
    ensures AcksMarked(SettleStep(n))
  {
    InHandNotRetired(n, n.pc.t);
    hide Conserved, DistinctIds, HandSound;
  }

  lemma StepAcksMarked(n: Node, a: Action)
    requires AcksMarked(n) && AcksExpected(n) && Conserved(n) && HandSound(n) && MapExact(n) && DistinctIds(n.put)
    requires Enabled(n, a)
    ensures AcksMarked(Step(n, a))
  {
    match a {
      case Settle => SettleAcksMarked(n);
      case Receive(f) => ReceiveAcksMarked(n, f);
      case _ =>
        SameConfirm(n, a);
        hide Step;
    }
  }

  lemma SameConfirm(n: Node, a: Action)
    requires Enabled(n, a) && !a.Receive? && !a.Settle?
    ensures Step(n, a).confirm == n.confirm && Step(n, a).accepted == n.accepted
  {
    ReceiverUntouched(n, a);
    hide ReceiveStep, SettleStep, Outgoing, DequeueStep, CheckStep, WriteOkStep, GiveUpStep;
    match a
    case Dequeue => DequeueConfirm(n);
    case Check => CheckConfirm(n);
    case WriteOk => WriteOkConfirm(n);
    case GiveUp => GiveUpConfirm(n);
    case _ =>
  }

  lemma DequeueConfirm(n: Node)
    requires Enabled(n, Dequeue)
    ensures DequeueStep(n).confirm == n.confirm
  {
  }

  lemma CheckConfirm(n: Node)
    requires Enabled(n, Check)
    ensures CheckStep(n).confirm == n.confirm
  {
  }

  lemma WriteOkConfirm(n: Node)
    requires Enabled(n, WriteOk)
    ensures WriteOkStep(n).confirm == n.confirm
  {
  }

  lemma GiveUpConfirm(n: Node)
    requires Enabled(n, GiveUp)
    ensures GiveUpStep(n).confirm == n.confirm
  {
  }

  // ----- the duplicate filter of the receive cycle -----

  function Ids(fs: seq<Frame>): (s: seq<Id>)
    ensures |s| == |fs|
    ensures forall i :: 0 <= i < |s| ==> s[i] == fs[i].msgId
  {
    seq(|fs|, i requires 0 <= i < |fs| => fs[i].msgId)
  }

  /** The window is the one the frames read so far have produced, and the accepted frames are its choice. */
  ghost predicate WindowTracks(n: Node) {
    Run(n.threshold, Ids(n.received)) == (n.window, Ids(n.accepted))
  }

  lemma ReceiveWindowTracks(n: Node, f: Frame)
    requires WindowTracks(n)
    ensures WindowTracks(ReceiveStep(n, f))
  {
    hide Arrive, Run;
    ReceiveHistory(n, f);
    assert Ids(n.received + [f]) == Ids(n.received) + [f.msgId];
    assert Ids(n.accepted + [f]) == Ids(n.accepted) + [f.msgId];
    RunSnoc(n.threshold, Ids(n.received), f.msgId);
    hide ReceiveStep;
  }

  lemma ReceiveHistory(n: Node, f: Frame)
    ensures var m := ReceiveStep(n, f);
            var (w, new_) := Arrive(n.threshold, n.window, f.msgId);
            && m.window == w && m.received == n.received + [f] && m.threshold == n.threshold
            && m.accepted == if new_ then n.accepted + [f] else n.accepted
  {
    hide Arrive, ReplyTo, Prefixed;
  }

  lemma StepWindowTracks(n: Node, a: Action)
    requires WindowTracks(n) && Enabled(n, a)
    ensures WindowTracks(Step(n, a))
  {
    hide ReceiveStep, Run, Ids;
    if a.Receive? {
      ReceiveWindowTracks(n, a.f);
    } else {
      ReceiverUntouched(n, a);
      hide Step;
    }
  }

  // ----- deliveries -----

  /** The requests among `fs`, in order. */
  function Requests(fs: seq<Frame>): seq<Frame> {
    if fs == [] then []
    else
      var k := |fs| - 1;
      Requests(fs[..k]) + if fs[k].kind == MESSAGE_CONFIRM_REQUEST then [fs[k]] else []
  }

  function Delivered(ds: seq<Delivery>): (fs: seq<Frame>)
    ensures |fs| == |ds|
    ensures forall i :: 0 <= i < |fs| ==> fs[i] == ds[i].frame
  {
    seq(|ds|, i requires 0 <= i < |ds| => ds[i].frame)
  }

  /**
   What must be passed on of an accepted frame: the data of a request, and the data of a plain
   message behind the connection's number unless the peer was banned.
   */
  function DeliveryOf(f: Frame, barred: bool, uniqId: uint32): seq<Delivery> {
    if f.kind == MESSAGE_CONFIRM_REQUEST then [Delivery(f, f.data)]
    else if f.kind == MESSAGE && !barred then [Delivery(f, Prefixed(uniqId, f.data))]
    else []
  }

  function Deliveries(fs: seq<Frame>, barred: seq<bool>, uniqId: uint32): seq<Delivery>
    requires |barred| == |fs|
  {
    if fs == [] then []
    else
      var k := |fs| - 1;
      Deliveries(fs[..k], barred[..k], uniqId) + DeliveryOf(fs[k], barred[k], uniqId)
  }

  /** What was passed on is what must be, of every accepted frame once, in order. */
  ghost predicate DeliveriesExact(n: Node) {
    |n.barred| == |n.accepted| && n.delivered == Deliveries(n.accepted, n.barred, n.uniqId)
  }

  lemma DeliveriesAppend(fs: seq<Frame>, barred: seq<bool>, uniqId: uint32, f: Frame, b: bool)
    requires |barred| == |fs|
    ensures Deliveries(fs + [f], barred + [b], uniqId)
            == Deliveries(fs, barred, uniqId) + DeliveryOf(f, b, uniqId)
  {
    assert (fs + [f])[..|fs|] == fs && (barred + [b])[..|fs|] == barred;
  }

  lemma RequestsAppend(fs: seq<Frame>, f: Frame)
    ensures Requests(fs + [f]) == Requests(fs) + if f.kind == MESSAGE_CONFIRM_REQUEST then [f] else []
  {
    assert (fs + [f])[..|fs|] == fs;
  }

  lemma RequestsPassedOn(ds: seq<Delivery>, f: Frame, barred: bool, uniqId: uint32)
    ensures Requests(Delivered(ds + DeliveryOf(f, barred, uniqId)))
            == Requests(Delivered(ds)) + if f.kind == MESSAGE_CONFIRM_REQUEST then [f] else []
  {
    hide Prefixed, Requests;
    var last := DeliveryOf(f, barred, uniqId);
    RequestsAppend(Delivered(ds), f);
    if last == [] {
      assert ds + last == ds;
    } else {
      assert Delivered(ds + last) == Delivered(ds) + [f];
    }
  }

  /** So the requests among the frames passed on are the accepted requests, one for one. */
  lemma {:induction false} RequestsDelivered(fs: seq<Frame>, barred: seq<bool>, uniqId: uint32)
    requires |barred| == |fs|
    ensures Requests(Delivered(Deliveries(fs, barred, uniqId))) == Requests(fs)
    decreases |fs|
  {
    hide DeliveryOf, Delivered;
    if fs != [] {
      var k := |fs| - 1;
      RequestsDelivered(fs[..k], barred[..k], uniqId);
      RequestsPassedOn(Deliveries(fs[..k], barred[..k], uniqId), fs[k], barred[k], uniqId);
    } else {
      assert Delivered([]) == [];
    }
  }

  /** The frame at `i` is passed on as it must be. */
  lemma {:induction false} EachDelivered(fs: seq<Frame>, barred: seq<bool>, uniqId: uint32, i: nat)
    requires |barred| == |fs| && i < |fs|
    ensures forall d :: d in DeliveryOf(fs[i], barred[i], uniqId) ==> d in Deliveries(fs, barred, uniqId)
    decreases |fs|
  {
    hide DeliveryOf;
    if i < |fs| - 1 {
      EachDelivered(fs[..|fs| - 1], barred[..|fs| - 1], uniqId, i);
    }
  }

  lemma ReceiveDeliveries(n: Node, f: Frame)
    requires DeliveriesExact(n)
    ensures DeliveriesExact(ReceiveStep(n, f))
  {
    hide Arrive, ReplyTo, Prefixed, Deliveries;
    DeliveriesAppend(n.accepted, n.barred, n.uniqId, f, n.banned);
  }

  lemma StepDeliveries(n: Node, a: Action)
    requires DeliveriesExact(n) && Enabled(n, a)
    ensures DeliveriesExact(Step(n, a))
  {
    hide ReceiveStep, Deliveries, Prefixed;
    if a.Receive? {
      ReceiveDeliveries(n, a.f);
    } else {
      ReceiverUntouched(n, a);
      hide Step;
    }
  }
}

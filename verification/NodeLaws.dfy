/** What every step of one connection keeps, whatever its peer and the channel do. */
module NodeLaws {
  import opened FrameCodec
  import opened Envelopes
  import opened SpamWindow
  import opened Node

  // ----- what the longer steps leave alone -----

  /** `m` differs from `n` only in what a received frame may change. */
  ghost predicate SenderUntouched(n: Node, m: Node) {
    && m.pc == n.pc && m.taken == n.taken && m.asked == n.asked && m.sent == n.sent
    && m.written == n.written && m.retired == n.retired && m.dropped == n.dropped && m.ended == n.ended
    && m.terminated == n.terminated && m.terminatorPut == n.terminatorPut
    && m.threshold == n.threshold && m.confirm.Keys == n.confirm.Keys
    && n.queue <= m.queue && n.put <= m.put && n.accepted <= m.accepted
  }

  lemma DispatchFrame(n: Node, f: Frame)
    ensures SenderUntouched(n, Dispatch(n, f))
  {
    hide ReplyTo, Prefixed;
  }

  /** A received frame touches neither the send cycle nor what it has done. */
  lemma ReceiveFrame(n: Node, f: Frame)
    ensures SenderUntouched(n, ReceiveStep(n, f))
  {
    hide Arrive, Dispatch;
    var (w, new_) := Arrive(n.threshold, n.window, f.msgId);
    var m := n.(window := w, received := n.received + [f]);
    DispatchFrame(m.(accepted := n.accepted + [f], barred := n.barred + [n.banned]), f);
  }

  /** `m` differs from `n` in nothing that reading frames is about. */
  ghost predicate SameReceiver(n: Node, m: Node) {
    && m.window == n.window && m.received == n.received && m.accepted == n.accepted
    && m.barred == n.barred && m.delivered == n.delivered && m.threshold == n.threshold && m.uniqId == n.uniqId
  }

  lemma DequeueSameReceiver(n: Node)
    requires Enabled(n, Dequeue)
    ensures SameReceiver(n, DequeueStep(n))
  {
  }

  lemma CheckSameReceiver(n: Node)
    requires Enabled(n, Check)
    ensures SameReceiver(n, CheckStep(n))
  {
  }

  lemma SettleSameReceiver(n: Node)
    requires Enabled(n, Settle)
    ensures SameReceiver(n, SettleStep(n))
  {
  }

  lemma WriteSameReceiver(n: Node)
    requires Enabled(n, WriteOk)
    ensures SameReceiver(n, WriteOkStep(n))
  {
    hide Outgoing;
  }

  /** Only a received frame changes what has been received. */
  lemma ReceiverUntouched(n: Node, a: Action)
    requires Enabled(n, a) && !a.Receive?
    ensures SameReceiver(n, Step(n, a))
  {
    hide Outgoing, ReceiveStep, DequeueStep, CheckStep, SettleStep, WriteOkStep;
    match a
    case Dequeue => DequeueSameReceiver(n);
    case Check => CheckSameReceiver(n);
    case Settle => SettleSameReceiver(n);
    case WriteOk => WriteSameReceiver(n);
    case _ =>
  }

  // ----- conservation: every envelope put is in exactly one place -----

  /** One ticket for each envelope ever put. */
  function Tickets(put: seq<Envelope>): (s: seq<Ticket>)
    ensures |s| == |put|
    ensures forall i :: 0 <= i < |s| ==> s[i] == Ticket(i, put[i])
  {
    if put == [] then []
    else
      var n := |put| - 1;
      Tickets(put[..n]) + [Ticket(n, put[n])]
  }

  /** The envelope the send cycle holds. */
  function Hand(pc: Pc): seq<Ticket> {
    match pc
    case AtHead(hand) => if hand.Some? then [hand.value] else []
    case Running(hand) => if hand.Some? then [hand.value] else []
    case Finished(hand) => if hand.Some? then [hand.value] else []
    case Ready(t) => [t]
    case Checked(t, _, _) => [t]
    case Prepared(t) => [t]
    case Written(t) => [t]
    case Failed(t) => [t]
  }

  /** How often `t` occurs in `s`. */
  function Count(s: seq<Ticket>, t: Ticket): nat {
    multiset(s)[t]
  }

  lemma CountConcat(a: seq<Ticket>, b: seq<Ticket>)
    ensures forall t :: Count(a + b, t) == Count(a, t) + Count(b, t)
  {
    assert multiset(a + b) == multiset(a) + multiset(b);
  }

  lemma CountTail(s: seq<Ticket>)
    requires s != []
    ensures forall t :: Count(s, t) == Count([s[0]], t) + Count(s[1..], t)
  {
    assert s == [s[0]] + s[1..];
    CountConcat([s[0]], s[1..]);
  }

  lemma CountNone()
    ensures forall t :: Count([], t) == 0
  {
  }

  /** How often `t` is written, retired, dropped, ended, queued or in hand. */
  function PlaceCount(n: Node, t: Ticket): nat {
    Count(n.written, t) + Count(n.retired, t) + Count(n.dropped, t) + Count(n.ended, t)
    + Count(n.queue, t) + Count(Hand(n.pc), t)
  }

  ghost predicate Conserved(n: Node) {
    && (forall t :: Count(Tickets(n.put), t) == PlaceCount(n, t))
    && n.droppedMessages == |n.dropped|
  }

  lemma AddToQueueConserves(n: Node, e: Envelope)
    requires Conserved(n)
    ensures Conserved(AddToQueue(n, e))
  {
    hide Count;
    var t := Ticket(|n.put|, e);
    assert Tickets(n.put + [e]) == Tickets(n.put) + [t];
    CountConcat(Tickets(n.put), [t]);
    CountConcat(n.queue, [t]);
  }

  /** The places are all that matters. */
  lemma SamePlaces(n: Node, m: Node)
    requires Conserved(n)
    requires m.put == n.put && m.written == n.written && m.retired == n.retired && m.ended == n.ended
    requires m.queue == n.queue && Hand(m.pc) == Hand(n.pc)
    requires m.dropped == n.dropped && m.droppedMessages == n.droppedMessages
    ensures Conserved(m)
  {
  }

  lemma ReceiveConserves(n: Node, f: Frame)
    requires Conserved(n)
    ensures Conserved(ReceiveStep(n, f))
  {
    hide Arrive, ReplyTo, Conserved, Prefixed;
    var (w, new_) := Arrive(n.threshold, n.window, f.msgId);
    var m := n.(window := w, received := n.received + [f]);
    SamePlaces(n, m);
    if new_ {
      m := m.(accepted := n.accepted + [f], barred := n.barred + [n.banned]);
      SamePlaces(n, m);
      AddToQueueConserves(m, ReplyTo(f));
      SamePlaces(if f.kind == MESSAGE_CONFIRM_REQUEST then AddToQueue(m, ReplyTo(f)) else m, Dispatch(m, f));
    }
  }

  lemma DequeueConserves(n: Node)
    requires Conserved(n) && Enabled(n, Dequeue)
    ensures Conserved(Step(n, Dequeue))
  {
    hide Count;
    CountNone();
    CountTail(n.queue);
    CountConcat(n.ended, [n.queue[0]]);
  }

  lemma SettleConserves(n: Node)
    requires Conserved(n) && Enabled(n, Settle)
    ensures Conserved(Step(n, Settle))
  {
    hide Count;
    CountNone();
    CountConcat(n.retired, [n.pc.t]);
  }

  lemma WriteConserves(n: Node)
    requires Conserved(n) && Enabled(n, WriteOk)
    ensures Conserved(Step(n, WriteOk))
  {
    hide Count, Outgoing;
    CountNone();
    CountConcat(n.written, [n.pc.t]);
  }

  lemma RequeueConserves(n: Node)
    requires Conserved(n) && Enabled(n, Requeue)
    ensures Conserved(Step(n, Requeue))
  {
    hide Count;
    CountNone();
    CountConcat(n.queue, [n.pc.t]);
  }

  lemma GiveUpConserves(n: Node)
    requires Conserved(n) && Enabled(n, GiveUp)
    ensures Conserved(Step(n, GiveUp))
  {
    hide Count;
    CountNone();
    CountConcat(n.dropped, [n.pc.t]);
    CountConcat(n.dropped + [n.pc.t], n.queue);
  }

  /** The send cycle moves envelopes between places, and every outside call only adds. */
  lemma StepConserves(n: Node, a: Action)
    requires Conserved(n) && Enabled(n, a)
    ensures Conserved(Step(n, a))
  {
    hide Conserved, AddToQueue, ReceiveStep, DequeueStep, SettleStep, WriteOkStep, GiveUpStep, Outgoing;
    match a
    case Dequeue => DequeueConserves(n);
    case Settle => SettleConserves(n);
    case WriteOk => WriteConserves(n);
    case Requeue => RequeueConserves(n);
    case GiveUp => GiveUpConserves(n);
    case Receive(f) => ReceiveConserves(n, f);
    case Send(e) => AddToQueueConserves(n, e);
    case PutTerminator(id) =>
      var m := AddToQueue(n, Envelope(Message, id, None));
      AddToQueueConserves(n, Envelope(Message, id, None));
      SamePlaces(m, Step(n, a));
    case _ => SamePlaces(n, Step(n, a));
  }

  lemma {:induction false} TicketsOnce(put: seq<Envelope>, t: Ticket)
    ensures Count(Tickets(put), t) == if t.no < |put| && put[t.no] == t.env then 1 else 0
    decreases |put|
  {
    if put != [] {
      var n := |put| - 1;
      TicketsOnce(put[..n], t);
      CountConcat(Tickets(put[..n]), [Ticket(n, put[n])]);
    }
  }

  /** `t` is the ticket of an envelope that was put. */
  predicate Known(n: Node, t: Ticket) {
    t.no < |n.put| && n.put[t.no] == t.env
  }

  /** Each envelope that was put is in one place, once; nothing else is anywhere. */
  lemma EachInOnePlace(n: Node, t: Ticket)
    requires Conserved(n)
    ensures PlaceCount(n, t) == if Known(n, t) then 1 else 0
  {
    hide Count;
    TicketsOnce(n.put, t);
  }

  lemma InHandOnce(n: Node, t: Ticket)
    requires Conserved(n) && t in Hand(n.pc)
    ensures Known(n, t)
    ensures t !in n.retired && t !in n.written && t !in n.ended && t !in n.queue
  {
    EachInOnePlace(n, t);
  }

  lemma QueuedIsKnown(n: Node)
    requires Conserved(n)
    ensures forall t :: t in n.queue ==> Known(n, t)
    ensures forall t :: t in n.retired ==> Known(n, t)
  {
    forall t | t in n.queue || t in n.retired ensures Known(n, t) {
      EachInOnePlace(n, t);
    }
  }

  /** The conservation law in multisets of envelopes. */
  lemma EnvelopesConserved(n: Node)
    requires Conserved(n)
    ensures multiset(Tickets(n.put)) ==
            multiset(n.written) + multiset(n.retired) + multiset(n.dropped) + multiset(n.ended)
            + multiset(n.queue) + multiset(Hand(n.pc))
    ensures n.droppedMessages == |n.dropped|
  {
    var places := multiset(n.written) + multiset(n.retired) + multiset(n.dropped) + multiset(n.ended)
                  + multiset(n.queue) + multiset(Hand(n.pc));
    forall t ensures multiset(Tickets(n.put))[t] == places[t] {
      assert Count(Tickets(n.put), t) == PlaceCount(n, t);
    }
  }

  // ----- what was put from outside -----

  /** The envelopes that `Send` has put: neither acknowledgements nor the terminating ones. */
  function FromOutside(put: seq<Envelope>): seq<Envelope> {
    if put == [] then []
    else
      var k := |put| - 1;
      FromOutside(put[..k]) + if put[k].kind != ConfirmReply && put[k].data.Some? then [put[k]] else []
  }

  lemma FromOutsideMore(put: seq<Envelope>, e: Envelope)
    ensures FromOutside(put + [e])
            == FromOutside(put) + if e.kind != ConfirmReply && e.data.Some? then [e] else []
  {
    assert (put + [e])[..|put|] == put;
  }

  lemma ReceivePut(n: Node, f: Frame)
    ensures ReceiveStep(n, f).put == n.put || ReceiveStep(n, f).put == n.put + [ReplyTo(f)]
  {
    hide Arrive, Prefixed;
  }

  /** Only `Send` adds to them, and it adds what it does not refuse. */
  lemma StepFromOutside(n: Node, a: Action)
    requires Enabled(n, a)
    ensures FromOutside(Step(n, a).put)
            == FromOutside(n.put) + if a.Send? && a.e.data.Some? && !n.banned then [a.e] else []
  {
    hide FromOutside, ReceiveStep, DequeueStep, CheckStep, SettleStep, WriteOkStep, GiveUpStep, Outgoing;
    match a
    case Receive(f) =>
      ReceivePut(n, f);
      FromOutsideMore(n.put, ReplyTo(f));
    case Send(e) => FromOutsideMore(n.put, e);
    case PutTerminator(id) => FromOutsideMore(n.put, Envelope(Message, id, None));
    case Dequeue => SamePut(n, a);
    case Check => SamePut(n, a);
    case Settle => SamePut(n, a);
    case WriteOk => SamePut(n, a);
    case GiveUp => SamePut(n, a);
    case _ =>
  }

  lemma SamePut(n: Node, a: Action)
    requires Enabled(n, a) && (a.Dequeue? || a.Check? || a.Settle? || a.WriteOk? || a.GiveUp?)
    ensures Step(n, a).put == n.put && Step(n, a).banned == n.banned
  {
    hide DequeueStep, CheckStep, SettleStep, WriteOkStep, GiveUpStep;
    match a
    case Dequeue => DequeuePut(n);
    case Check => CheckPut(n);
    case Settle => SettlePut(n);
    case WriteOk => WriteOkPut(n);
    case GiveUp => GiveUpPut(n);
  }

  lemma DequeuePut(n: Node)
    requires Enabled(n, Dequeue)
    ensures DequeueStep(n).put == n.put && DequeueStep(n).banned == n.banned
  {
  }

  lemma CheckPut(n: Node)
    requires Enabled(n, Check)
    ensures CheckStep(n).put == n.put && CheckStep(n).banned == n.banned
  {
  }

  lemma SettlePut(n: Node)
    requires Enabled(n, Settle)
    ensures SettleStep(n).put == n.put && SettleStep(n).banned == n.banned
  {
  }

  lemma WriteOkPut(n: Node)
    requires Enabled(n, WriteOk)
    ensures WriteOkStep(n).put == n.put && WriteOkStep(n).banned == n.banned
  {
    hide Outgoing;
  }

  lemma GiveUpPut(n: Node)
    requires Enabled(n, GiveUp)
    ensures GiveUpStep(n).put == n.put && GiveUpStep(n).banned == n.banned
  {
  }
}

/**
 The delivery theorems: what one end may conclude about the other, in every reachable state
 of two nodes over a channel that loses, delays, repeats and reorders.
 */
module DeliveryTheorems {
  import opened FrameCodec
  import opened Envelopes
  import opened SpamWindow
  import opened Node
  import opened NodeLaws
  import opened SenderLaws
  import opened ProtocolLaws
  import opened TwoNodes

  lemma EndsInvariant(w: World, s: Node, r: Node)
    requires Reachable(w) && Ends(w, s, r)
    ensures Local(s) && Local(r) && NoForgery(s, r) && NoForgery(r, s)
  {
    hide Reachable, Local, NoForgery;
    ReachableInvariant(w);
  }

  // ----- retired => acknowledged => accepted by the peer -----

  /** An acknowledgement on the wire means its request was accepted by the end that wrote it. */
  lemma AckMeansAccepted(s: Node, r: Node, ack: Frame) returns (request: Frame)
    requires Local(r) && NoForgery(s, r)
    requires ack in r.sent && ack.kind == CONFIRM_REPLY
    ensures request in r.accepted && request in s.sent
    ensures request.kind == MESSAGE_CONFIRM_REQUEST && request.msgId == ack.msgId
  {
    assert Backed(r, ack);
    var i :| 0 <= i < |r.put| && r.put[i] == Envelope(ConfirmReply, ack.msgId, Some(ack.data));
    assert Has(r.accepted, MESSAGE_CONFIRM_REQUEST, r.put[i].msgId);
    request :| request in r.accepted && request.kind == MESSAGE_CONFIRM_REQUEST && request.msgId == ack.msgId;
  }

  /** Whatever the ids: a retired envelope's id was accepted by the peer in a request. */
  lemma RetiredIdWasAccepted(w: World, s: Node, r: Node, t: Ticket) returns (request: Frame)
    requires Reachable(w) && Ends(w, s, r) && t in s.retired
    ensures request in r.accepted && request in s.sent
    ensures request.kind == MESSAGE_CONFIRM_REQUEST && request.msgId == t.env.msgId
  {
    EndsInvariant(w, s, r);
    assert Has(s.accepted, CONFIRM_REPLY, t.env.msgId);
    var ack :| ack in s.accepted && ack.kind == CONFIRM_REPLY && ack.msgId == t.env.msgId;
    hide Local;
    request := AckMeansAccepted(s, r, ack);
  }

  /** An accepted request has been handed on, unprefixed. */
  lemma AcceptedWasDelivered(r: Node, f: Frame)
    requires DeliveriesExact(r)
    requires f in r.accepted && f.kind == MESSAGE_CONFIRM_REQUEST
    ensures Delivery(f, f.data) in r.delivered
  {
    var i :| 0 <= i < |r.accepted| && r.accepted[i] == f;
    EachDelivered(r.accepted, r.barred, r.uniqId, i);
    assert Delivery(f, f.data) in DeliveryOf(f, r.barred[i], r.uniqId);
  }

  /**
   What an end passes on, of the frames it accepts: each Consensus request's data, and each plain
   message's data behind the number unless the peer was banned when it was read - each once, in
   the order of acceptance, and nothing else.
   */
  lemma PassedOnExactly(w: World, s: Node, r: Node)
    requires Reachable(w) && Ends(w, s, r)
    ensures |r.barred| == |r.accepted|
    ensures r.delivered == Deliveries(r.accepted, r.barred, r.uniqId)
    ensures forall i :: 0 <= i < |r.accepted| && r.accepted[i].kind == 3 ==>
              Delivery(r.accepted[i], r.accepted[i].data) in r.delivered
    ensures forall i :: 0 <= i < |r.accepted| && r.accepted[i].kind == 0 && !r.barred[i] ==>
              var bytes := Prefixed(r.uniqId, r.accepted[i].data);
              Delivery(r.accepted[i], bytes) in r.delivered && CarriesNumber(bytes, r.uniqId, r.accepted[i].data)
  {
    EndsInvariant(w, s, r);
    hide Local, Deliveries;
    assert DeliveriesExact(r) by {
      LocalDeliveries(r);
    }
    hide DeliveriesExact, CarriesNumber, Prefixed;
    forall i | 0 <= i < |r.accepted|
      ensures r.accepted[i].kind == 3 ==> Delivery(r.accepted[i], r.accepted[i].data) in r.delivered
    {
      EachPassedOn(r, i);
    }
    forall i | 0 <= i < |r.accepted| && r.accepted[i].kind == 0 && !r.barred[i]
      ensures var bytes := Prefixed(r.uniqId, r.accepted[i].data);
              Delivery(r.accepted[i], bytes) in r.delivered && CarriesNumber(bytes, r.uniqId, r.accepted[i].data)
    {
      EachPassedOn(r, i);
      NumberInFront(r.uniqId, r.accepted[i].data);
    }
  }

  lemma EachPassedOn(r: Node, i: nat)
    requires DeliveriesExact(r) && i < |r.accepted|
    ensures var f := r.accepted[i];
            && (f.kind == 3 ==> Delivery(f, f.data) in r.delivered)
            && (f.kind == 0 && !r.barred[i] ==> Delivery(f, Prefixed(r.uniqId, f.data)) in r.delivered)
  {
    hide Deliveries, Prefixed;
    EachDelivered(r.accepted, r.barred, r.uniqId, i);
    var due := DeliveryOf(r.accepted[i], r.barred[i], r.uniqId);
    assert due != [] ==> due[0] in due;
  }

  lemma LocalDeliveries(n: Node)
    requires Local(n)
    ensures DeliveriesExact(n)
  {
    hide DeliveriesExact, Conserved, WindowTracks, Ordered, NeverAsleep;
  }

  /** The peer accepted the very request for `e`, and passed its data on. */
  predicate GotThrough(r: Node, e: Envelope) {
    && e.kind == Consensus && e.data.Some?
    && FrameFor(e) in r.accepted && Delivery(FrameFor(e), e.data.value) in r.delivered
  }

  /** Every Consensus envelope put under the id of `e` carries the data of `e`. */
  predicate OneData(put: seq<Envelope>, e: Envelope) {
    forall i :: 0 <= i < |put| && put[i].kind == Consensus && put[i].msgId == e.msgId ==> put[i].data == e.data
  }

  /**
   A Consensus envelope is retired as confirmed only after the peer accepted a request with its
   id and its data, and passed that data on - for every run in which no other data was sent
   under its id.
   */
  lemma RetiredWasDelivered(w: World, s: Node, r: Node, t: Ticket)
    requires Reachable(w) && Ends(w, s, r) && OneData(s.put, t.env)
    requires t in s.retired
    ensures GotThrough(r, t.env)
  {
    EndsInvariant(w, s, r);
    var request := RetiredIdWasAccepted(w, s, r, t);
    assert Backed(s, request);
    var i :| 0 <= i < |s.put| && s.put[i] == Envelope(Consensus, request.msgId, Some(request.data));
    QueuedIsKnown(s);
    assert s.put[i].data == t.env.data;
    AcceptedWasDelivered(r, request);
  }

  // ----- what goes out, and what is acknowledged -----

  /**
   A frame on the wire that carries or acknowledges a message has the id and the data of an envelope
   of its kind that was put there, and the frame of every envelope let go as written is on the wire.
   */
  lemma SentAsPut(w: World, s: Node, r: Node)
    requires Reachable(w) && Ends(w, s, r)
    ensures forall f :: f in s.sent && f.kind == 0 ==>
              exists i :: 0 <= i < |s.put| && s.put[i] == Envelope(Message, f.msgId, Some(f.data))
    ensures forall f :: f in s.sent && f.kind == 3 ==>
              exists i :: 0 <= i < |s.put| && s.put[i] == Envelope(Consensus, f.msgId, Some(f.data))
    ensures forall f :: f in s.sent && f.kind == 4 ==>
              exists i :: 0 <= i < |s.put| && s.put[i] == Envelope(ConfirmReply, f.msgId, Some(f.data))
    ensures forall t :: t in s.written ==>
              && t.env.data.Some? && t.env.kind != Consensus
              && Frame(if t.env.kind == Message then 0 else 4, t.env.msgId, t.env.data.value) in s.sent
    ensures forall t :: t in s.queue && t in s.taken ==> WentOut(s, t.env)
  {
    EndsInvariant(w, s, r);
    LocalSent(s);
    hide Local, AllBacked, AllWentOut;
    forall f | f in s.sent ensures Backed(s, f) {
      EachBacked(s, f);
    }
    forall t | t in s.written ensures WentOut(s, t.env) && t.env.kind != Consensus {
      EachWentOut(s, t);
    }
    forall t | t in s.queue && t in s.taken ensures WentOut(s, t.env) {
      EachWentOut(s, t);
    }
  }

  lemma LocalSent(n: Node)
    requires Local(n)
    ensures AllBacked(n) && AllWentOut(n)
  {
    hide AllBacked, AllWentOut, Conserved, WindowTracks, Ordered, NeverAsleep, DeliveriesExact;
  }

  lemma EachBacked(n: Node, f: Frame)
    requires AllBacked(n) && f in n.sent
    ensures Backed(n, f)
  {
  }

  lemma EachWentOut(n: Node, t: Ticket)
    requires AllWentOut(n)
    ensures t in n.written || (t in n.queue && t in n.taken) ==> WentOut(n, t.env)
    ensures t in n.written ==> t.env.kind != Consensus
  {
  }

  /**
   Every accepted request is acknowledged: the acknowledging envelopes put are, in order, one for
   each accepted request, with its id and one zero byte.
   */
  lemma AcknowledgedExactly(w: World, s: Node, r: Node)
    requires Reachable(w) && Ends(w, s, r)
    ensures Replies(r.put) == RepliesDue(r.accepted)
  {
    EndsInvariant(w, s, r);
    LocalReplies(r);
  }

  lemma LocalReplies(n: Node)
    requires Local(n)
    ensures RepliesExact(n)
  {
    hide RepliesExact, AllBacked, AllWentOut, Conserved, WindowTracks, Ordered, NeverAsleep, DeliveriesExact;
  }

  // ----- the flags of the confirm map -----

  ghost predicate Marked(n: Node) {
    DistinctIds(n.put) ==> AcksMarked(n)
  }

  /** Acknowledgements that were accepted are of ids registered or retired. */
  lemma AcceptedIsExpected(s: Node, r: Node)
    requires Local(s) && Local(r) && NoForgery(s, r) && NoForgery(r, s)
    ensures AcksExpected(s)
  {
    forall ack | ack in s.accepted && ack.kind == CONFIRM_REPLY
      ensures ack.msgId in s.confirm.Keys + RetiredIds(s)
    {
      var request := AckMeansAccepted(s, r, ack);
    }
  }

  lemma StepMarked(n: Node, a: Action, peer: Node)
    requires Marked(n) && Enabled(n, a)
    requires Local(n) && Local(peer) && NoForgery(n, peer) && NoForgery(peer, n)
    ensures Marked(Step(n, a))
  {
    hide Step, Enabled, AcksMarked, NoForgery, DistinctIds, Local;
    if DistinctIds(Step(n, a).put) {
      PutOnlyGrows(n, a);
      PrefixDistinct(n.put, Step(n, a).put);
      AcceptedIsExpected(n, peer);
      LocalMap(n);
      StepAcksMarked(n, a);
    }
  }

  lemma LocalMap(n: Node)
    requires Local(n) && DistinctIds(n.put)
    ensures Conserved(n) && HandSound(n) && MapExact(n) && ConfirmsEarned(n)
  {
    hide AllBacked, AllWentOut, Conserved, WindowTracks, Ordered, NeverAsleep, DeliveriesExact, MapExact;
    hide DistinctIds, ConfirmsEarned, HandSound;
  }

  lemma {:induction false} RunMarked(ws: seq<World>, moves: seq<Move>, i: nat)
    requires IsWorldRun(ws, moves) && i <= |moves|
    ensures Marked(ws[i].a) && Marked(ws[i].b)
  {
    hide Local, Enabled, Step, Available, NoForgery;
    if i > 0 {
      RunMarked(ws, moves, i - 1);
      RunInvariant(ws, moves, i - 1);
      hide Marked;
      var w := ws[i - 1];
      match moves[i - 1]
      case AtA(a) => StepMarked(w.a, a, w.b);
      case AtB(a) => StepMarked(w.b, a, w.a);
    }
  }

  /**
   With distinct ids, a registered id is marked as confirmed if and only if an acknowledgement of it
   has been accepted.
   */
  lemma ConfirmedExactly(w: World, s: Node, r: Node)
    requires Reachable(w) && Ends(w, s, r) && DistinctIds(s.put)
    ensures forall id :: id in s.confirm ==>
              (s.confirm[id] <==> exists ack :: ack in s.accepted && ack.kind == 4 && ack.msgId == id)
  {
    hide Local, DistinctIds, MoveEnabled, MoveStep, Start, NoForgery;
    EndsInvariant(w, s, r);
    LocalMap(s);
    var ws, moves :| IsWorldRun(ws, moves) && ws[|moves|] == w;
    RunMarked(ws, moves, |moves|);
    hide Conserved, HandSound, MapExact;
    forall id | id in s.confirm
      ensures s.confirm[id] <==> exists ack :: ack in s.accepted && ack.kind == 4 && ack.msgId == id
    {
      assert Has(s.accepted, 4, id) <==> exists ack :: ack in s.accepted && ack.kind == 4 && ack.msgId == id;
    }
  }

  // ----- registration -----

  /**
   An acknowledgement that arrives is always for an id that is registered or already retired,
   and with distinct ids the map holds exactly the ids attempted and not retired.
   */
  lemma AckIsExpected(w: World, s: Node, r: Node)
    requires Reachable(w) && Ends(w, s, r)
    ensures forall ack :: ack in r.sent && ack.kind == CONFIRM_REPLY ==>
              ack.msgId in s.confirm.Keys + RetiredIds(s)
    ensures DistinctIds(s.put) ==> s.confirm.Keys == s.asked - RetiredIds(s) - Pending(s)
  {
    EndsInvariant(w, s, r);
    assert RequestsRegistered(s) && (DistinctIds(s.put) ==> MapExact(s));
    forall ack | ack in r.sent && ack.kind == CONFIRM_REPLY
      ensures ack.msgId in s.confirm.Keys + RetiredIds(s)
    {
      var request := AckMeansAccepted(s, r, ack);
    }
  }

  // ----- at most one delivery per window -----

  /**
   Two acceptances of one id are at least T accepted frames apart, however often it is sent again -
   exactly if no frame arrives while the counter of its remembered id stands at 0.
   */
  lemma AcceptancesSpaced(w: World, s: Node, r: Node)
    requires Reachable(w) && Ends(w, s, r)
    ensures Spaced(r.threshold, Ids(r.accepted)) <==> NeverWrapped(r.threshold, Ids(r.received))
  {
    EndsInvariant(w, s, r);
    assert WindowTracks(r);
    SpacedExactly(r.threshold, Ids(r.received));
  }

  /** How many requests with `id` are in `fs`. */
  function RequestCount(fs: seq<Frame>, id: Id): nat {
    if fs == [] then 0
    else
      var k := |fs| - 1;
      RequestCount(fs[..k], id) + if fs[k].kind == MESSAGE_CONFIRM_REQUEST && fs[k].msgId == id then 1 else 0
  }

  lemma RequestCountMore(fs: seq<Frame>, f: Frame, id: Id)
    ensures RequestCount(fs + [f], id)
            == RequestCount(fs, id) + if f.kind == MESSAGE_CONFIRM_REQUEST && f.msgId == id then 1 else 0
  {
    assert (fs + [f])[..|fs|] == fs;
  }

  lemma {:induction false} RequestCountOfRequests(fs: seq<Frame>, id: Id)
    ensures RequestCount(Requests(fs), id) == RequestCount(fs, id)
    decreases |fs|
  {
    if fs != [] {
      var k := |fs| - 1;
      RequestCountOfRequests(fs[..k], id);
      RequestCountMore(Requests(fs[..k]), fs[k], id);
      RequestCountMore(fs[..k], fs[k], id);
      assert fs == fs[..k] + [fs[k]];
      assert Requests(fs[..k]) + [] == Requests(fs[..k]);
      hide RequestCount;
    }
  }

  lemma {:induction false} OnlyRequest(fs: seq<Frame>, id: Id, i: nat)
    requires i < |fs| && fs[i].kind == MESSAGE_CONFIRM_REQUEST && fs[i].msgId == id
    requires forall j :: 0 <= j < |fs| && fs[j].msgId == id ==> j == i
    ensures RequestCount(fs, id) == 1
    decreases |fs|
  {
    var k := |fs| - 1;
    if i < k {
      OnlyRequest(fs[..k], id, i);
    } else {
      NoRequest(fs[..k], id);
    }
  }

  lemma {:induction false} NoRequest(fs: seq<Frame>, id: Id)
    requires forall j :: 0 <= j < |fs| ==> fs[j].msgId != id
    ensures RequestCount(fs, id) == 0
    decreases |fs|
  {
    if fs != [] {
      NoRequest(fs[..|fs| - 1], id);
    }
  }

  /**
   A retired envelope was delivered exactly once, if no more than T - 1 frames were accepted
   after the first one with its id.
   */
  lemma RetiredDeliveredOnce(w: World, s: Node, r: Node, t: Ticket, i: nat)
    requires Reachable(w) && Ends(w, s, r) && OneData(s.put, t.env)
    requires NeverWrapped(r.threshold, Ids(r.received))
    requires t in s.retired
    requires i < |r.accepted| && r.accepted[i].msgId == t.env.msgId
    requires forall j :: 0 <= j < i ==> r.accepted[j].msgId != t.env.msgId
    requires |r.accepted| - i <= r.threshold
    ensures t.env.data.Some? && r.accepted[i] == FrameFor(t.env)
    ensures RequestCount(Delivered(r.delivered), t.env.msgId) == 1
  {
    RetiredWasDelivered(w, s, r, t);
    AcceptancesSpaced(w, s, r);
    EndsInvariant(w, s, r);
    var ids, id := Ids(r.accepted), t.env.msgId;
    forall j | 0 <= j < |r.accepted| && r.accepted[j].msgId == id ensures j == i {
      assert ids[i] == ids[j];
    }
    var k :| 0 <= k < |r.accepted| && r.accepted[k] == FrameFor(t.env);
    RequestsDelivered(r.accepted, r.barred, r.uniqId);
    OnlyRequest(r.accepted, id, i);
    RequestCountOfRequests(r.accepted, id);
    RequestCountOfRequests(Delivered(r.delivered), id);
  }

  // ----- conservation and order, in every reachable state -----

  /**
   Every envelope put on a connection is written, retired, dropped, taken as the terminating one,
   queued or in hand - once - and the dropped ones are the ones counted.
   */
  lemma SenderConservation(w: World, s: Node, r: Node)
    requires Reachable(w) && Ends(w, s, r)
    ensures multiset(Tickets(s.put)) ==
            multiset(s.written) + multiset(s.retired) + multiset(s.dropped) + multiset(s.ended)
            + multiset(s.queue) + multiset(Hand(s.pc))
    ensures s.droppedMessages == |s.dropped|
  {
    EndsInvariant(w, s, r);
    EnvelopesConserved(s);
  }

  /** Envelopes are first attempted in the order they were put, dropped ones skipped. */
  lemma AttemptOrder(w: World, s: Node, r: Node, j: nat)
    requires Reachable(w) && Ends(w, s, r)
    requires j < |s.taken| && s.taken[j] !in s.taken[..j]
    ensures forall i :: 0 <= i < j ==> s.taken[i].no < s.taken[j].no
    ensures s.taken[j].no < |s.put|
    ensures forall k :: 0 <= k < s.taken[j].no ==>
              Ticket(k, s.put[k]) in s.taken || Ticket(k, s.put[k]) in s.dropped
  {
    EndsInvariant(w, s, r);
    assert s.taken[j] in s.taken;
    FirstAttemptsInOrder(s, j);
  }

  lemma ReachableNeverAsleep(w: World, s: Node, r: Node)
    requires Reachable(w) && Ends(w, s, r)
    ensures NeverAsleep(s)
  {
    hide NeverAsleep, Conserved, Ordered, AllBacked, WindowTracks, DeliveriesExact, AllWentOut, RepliesExact;
    EndsInvariant(w, s, r);
  }

  /** After `Terminate` no reachable end sleeps on an empty queue, and its cycle ends within one pass. */
  lemma TerminationPrompt(w: World, s: Node, r: Node, ns: seq<Node>, actions: seq<Action>)
    requires Reachable(w) && Ends(w, s, r) && s.terminatorPut
    requires IsRun(ns, actions) && ns[0] == s
    ensures s.pc.Running? ==> TerminatorQueued(s)
    ensures CycleActions(actions) <= 6
    ensures CycleActions(actions) == Remaining(s.pc) ==> ns[|actions|].pc.Finished?
  {
    hide Reachable, Ends, Step, Enabled, TerminatorQueued;
    ReachableNeverAsleep(w, s, r);
    AtMostOnePass(ns, actions);
    NothingRemains(ns[|actions|].pc);
  }

  lemma NothingRemains(pc: Pc)
    ensures Remaining(pc) == 0 <==> pc.Finished?
  {
  }

  // ----- and what happens when an id is shared -----

  /** Two Consensus envelopes under one id, with different data. */
  predicate Clash(first: Envelope, second: Envelope) {
    && first.kind == Consensus && second.kind == Consensus && first.msgId == second.msgId
    && first.data.Some? && second.data.Some? && first.data != second.data
  }

  /** A step of the sending end: the peer stays where it is. */
  lemma Advance(w: World, action: Action) returns (w': World)
    requires Reachable(w) && Enabled(w.a, action) && Available(w.b, action)
    ensures Reachable(w') && w' == World(Step(w.a, action), w.b)
  {
    MoveReachable(w, AtA(action));
    w' := MoveStep(w, AtA(action));
  }

  lemma AdvancePeer(w: World, action: Action) returns (w': World)
    requires Reachable(w) && Enabled(w.b, action) && Available(w.a, action)
    ensures Reachable(w') && w' == World(w.a, Step(w.b, action))
  {
    MoveReachable(w, AtB(action));
    w' := MoveStep(w, AtB(action));
  }

  /** Both envelopes have been put, none is retired and the sending end has read no frame. */
  predicate BothPut(n: Node, first: Envelope, second: Envelope, threshold: nat) {
    && n.put == [first, second] && n.retired == []
    && n.window == EMPTY_WINDOW && n.accepted == [] && n.threshold == threshold && !n.terminated
  }

  /** Both are queued, and the first is taken. */
  lemma QueueBoth(first: Envelope, second: Envelope, threshold: nat) returns (w: World)
    requires Clash(first, second) && threshold >= 2
    ensures Reachable(w) && BothPut(w.a, first, second, threshold) && w.b == Initial(threshold, 0)
    ensures w.a.queue == [Ticket(1, second)] && w.a.pc == Ready(Ticket(0, first))
    ensures w.a.confirm == map[] && w.a.sent == []
  {
    hide Reachable;
    w := World(Initial(threshold, 0), Initial(threshold, 0));
    StartReachable(w);
    w := Advance(w, Send(first));
    w := Advance(w, Send(second));
    w := Advance(w, EnterPass);
    w := Advance(w, Dequeue);
  }

  /** The first is written, while the second waits. */
  lemma WriteFirst(first: Envelope, second: Envelope, threshold: nat) returns (w: World)
    requires Clash(first, second) && threshold >= 2
    ensures Reachable(w) && BothPut(w.a, first, second, threshold) && w.b == Initial(threshold, 0)
    ensures w.a.queue == [Ticket(1, second), Ticket(0, first)] && w.a.pc == AtHead(None)
    ensures w.a.confirm == map[first.msgId := false] && w.a.sent == [FrameFor(first)]
  {
    hide Reachable;
    w := QueueBoth(first, second, threshold);
    w := Advance(w, Check);
    w := Advance(w, Settle);
    w := Advance(w, WriteOk);
    w := Advance(w, Requeue);
  }

  /** The peer accepts the first request and acknowledges its id. */
  lemma AcknowledgeFirst(first: Envelope, second: Envelope, threshold: nat) returns (w: World)
    requires Clash(first, second) && threshold >= 2
    ensures Reachable(w) && BothPut(w.a, first, second, threshold)
    ensures w.a.queue == [Ticket(1, second), Ticket(0, first)] && w.a.pc == AtHead(None)
    ensures w.a.confirm == map[first.msgId := false] && w.a.sent == [FrameFor(first)]
    ensures w.b.sent == [Frame(CONFIRM_REPLY, first.msgId, [0])] && w.b.accepted == [FrameFor(first)]
    ensures w.b.threshold == threshold
  {
    hide Reachable;
    w := WriteFirst(first, second, threshold);
    FirstCopy(threshold, first.msgId);
    hide Arrive;
    w := AdvancePeer(w, Receive(FrameFor(first)));
    w := AdvancePeer(w, EnterPass);
    w := AdvancePeer(w, Dequeue);
    w := AdvancePeer(w, Check);
    w := AdvancePeer(w, WriteOk);
  }

  /** The second envelope is retired on the first one's acknowledgement, without ever being written. */
  lemma SharedIdRetiresUnsent(first: Envelope, second: Envelope, threshold: nat) returns (w: World)
    requires Clash(first, second) && threshold >= 2
    ensures Reachable(w) && w.a.put == [first, second] && w.a.threshold == w.b.threshold == threshold
    ensures Ticket(1, second) in w.a.retired
    ensures FrameFor(second) !in w.a.sent && FrameFor(second) !in w.b.accepted
  {
    hide Reachable;
    w := AcknowledgeFirst(first, second, threshold);
    FirstCopy(threshold, first.msgId);
    hide Arrive;
    w := Advance(w, Receive(Frame(CONFIRM_REPLY, first.msgId, [0])));
    w := Advance(w, EnterPass);
    w := Advance(w, Dequeue);
    w := Advance(w, Check);
    w := Advance(w, Settle);
  }

  /** The Consensus envelopes put are among `es`. */
  predicate PutWithin(put: seq<Envelope>, es: set<Envelope>) {
    forall i :: 0 <= i < |put| && put[i].kind == Consensus ==> put[i] in es
  }

  /** In every run that sends only Consensus envelopes of `es`, every envelope retired got through. */
  ghost predicate RetiredGetThrough(es: set<Envelope>) {
    forall w, s, r, t :: Reachable(w) && Ends(w, s, r) && PutWithin(s.put, es) && t in s.retired ==>
      GotThrough(r, t.env)
  }

  lemma RetiredIsWithin(w: World, s: Node, r: Node, t: Ticket, es: set<Envelope>)
    requires Reachable(w) && Ends(w, s, r) && PutWithin(s.put, es) && t in s.retired
    ensures t.env in es
  {
    EndsInvariant(w, s, r);
    QueuedIsKnown(s);
  }

  /**
   Which envelopes may be sent so that retirement always means delivery: exactly those sets in
   which no two share an id and differ in their data.
   */
  lemma RetiredGetThroughExactly(es: set<Envelope>)
    requires forall e :: e in es ==> e.kind == Consensus && e.data.Some?
    ensures RetiredGetThrough(es) <==> forall d, e :: d in es && e in es && d.msgId == e.msgId ==> d.data == e.data
  {
    hide Reachable;
    if d, e :| d in es && e in es && d.msgId == e.msgId && d.data != e.data {
      var w := SharedIdRetiresUnsent(d, e, SPAM_STORE_THRESHOLD);
      assert Ends(w, w.a, w.b) && PutWithin(w.a.put, es) && !GotThrough(w.b, e);
    } else {
      forall w, s, r, t | Reachable(w) && Ends(w, s, r) && PutWithin(s.put, es) && t in s.retired
        ensures GotThrough(r, t.env)
      {
        RetiredIsWithin(w, s, r, t, es);
        RetiredWasDelivered(w, s, r, t);
      }
    }
  }
}

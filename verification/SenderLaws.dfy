/** The order in which the send cycle attempts envelopes, and how it ends. */
module SenderLaws {
  import opened Envelopes
  import opened SpamWindow
  import opened FrameCodec
  import opened Node
  import opened NodeLaws

  // ----- first attempts in order -----

  /** Numbers grow along the first occurrences in `taken`. */
  ghost predicate FirstsIncrease(taken: seq<Ticket>) {
    forall i, j :: 0 <= i < j < |taken| && taken[j] !in taken[..j] ==> taken[i].no < taken[j].no
  }

  /** Envelopes not taken yet stand in the queue in the order they were put, after all those taken. */
  ghost predicate FreshInOrder(queue: seq<Ticket>, taken: seq<Ticket>) {
    && (forall i, u :: 0 <= i < |queue| && queue[i] !in taken && u in taken ==> u.no < queue[i].no)
    && (forall i, j :: 0 <= i < j < |queue| && queue[i] !in taken && queue[j] !in taken ==>
          queue[i].no < queue[j].no)
  }

  ghost predicate Numbered(n: Node) {
    && (forall t :: t in n.taken ==> t.no < |n.put|)
    && (forall t :: t in n.queue ==> t.no < |n.put|)
  }

  /** Whatever was written, retired or is in hand was taken from the queue first. */
  ghost predicate CameFromQueue(n: Node) {
    && (forall t :: t in n.written ==> t in n.taken)
    && (forall t :: t in n.retired ==> t in n.taken)
    && (forall t :: t in n.ended ==> t in n.taken)
    && (forall t :: t in Hand(n.pc) ==> t in n.taken)
  }

  ghost predicate Ordered(n: Node) {
    Numbered(n) && CameFromQueue(n) && FirstsIncrease(n.taken) && FreshInOrder(n.queue, n.taken)
  }

  lemma SameOrder(n: Node, m: Node)
    requires Ordered(n)
    requires |m.put| == |n.put| && m.queue == n.queue && m.taken == n.taken && Hand(m.pc) == Hand(n.pc)
    requires m.written == n.written && m.retired == n.retired && m.ended == n.ended
    ensures Ordered(m)
  {
  }

  lemma AddToQueueOrdered(n: Node, e: Envelope)
    requires Ordered(n)
    ensures Ordered(AddToQueue(n, e))
  {
  }

  lemma AppendIncreases(queue: seq<Ticket>, taken: seq<Ticket>)
    requires queue != [] && FirstsIncrease(taken) && FreshInOrder(queue, taken)
    ensures FirstsIncrease(taken + [queue[0]])
  {
    var t := taken + [queue[0]];
    forall i, j | 0 <= i < j < |t| && t[j] !in t[..j] ensures t[i].no < t[j].no {
      assert t[..j] == taken[..j];
      if j == |taken| {
        assert t[i] in taken && taken[..j] == taken;
      }
    }
  }

  lemma TailFresh(queue: seq<Ticket>, taken: seq<Ticket>)
    requires queue != [] && FreshInOrder(queue, taken)
    ensures FreshInOrder(queue[1..], taken + [queue[0]])
  {
    var q, t := queue[1..], taken + [queue[0]];
    forall i, u | 0 <= i < |q| && q[i] !in t && u in t ensures u.no < q[i].no {
      assert q[i] == queue[i + 1];
    }
    forall i, j | 0 <= i < j < |q| && q[i] !in t && q[j] !in t ensures q[i].no < q[j].no {
      assert q[i] == queue[i + 1] && q[j] == queue[j + 1];
    }
  }

  lemma DequeueOrdered(n: Node)
    requires Ordered(n) && Enabled(n, Dequeue)
    ensures Ordered(Step(n, Dequeue))
  {
    AppendIncreases(n.queue, n.taken);
    TailFresh(n.queue, n.taken);
    DequeueNumbered(n);
    DequeueCame(n);
    hide FirstsIncrease, FreshInOrder, Numbered, CameFromQueue;
  }

  lemma DequeueNumbered(n: Node)
    requires Numbered(n) && Enabled(n, Dequeue)
    ensures Numbered(Step(n, Dequeue))
  {
    assert n.queue == [n.queue[0]] + n.queue[1..];
  }

  lemma DequeueCame(n: Node)
    requires CameFromQueue(n) && Enabled(n, Dequeue)
    ensures CameFromQueue(Step(n, Dequeue))
  {
    var m := Step(n, Dequeue);
    assert n.queue[0] in m.taken && forall t :: t in n.taken ==> t in m.taken;
  }

  lemma RequeueOrdered(n: Node)
    requires Ordered(n) && Enabled(n, Requeue)
    ensures Ordered(Step(n, Requeue))
  {
  }

  lemma SettleOrdered(n: Node)
    requires Ordered(n) && Enabled(n, Settle)
    ensures Ordered(Step(n, Settle))
  {
    hide FirstsIncrease, FreshInOrder;
    assert n.pc.t in Hand(n.pc);
  }

  lemma WriteOrdered(n: Node)
    requires Ordered(n) && Enabled(n, WriteOk)
    ensures Ordered(Step(n, WriteOk))
  {
    hide FirstsIncrease, FreshInOrder, Outgoing;
    assert n.pc.t in Hand(n.pc);
  }

  lemma GiveUpOrdered(n: Node)
    requires Ordered(n) && Enabled(n, GiveUp)
    ensures Ordered(Step(n, GiveUp))
  {
    hide FirstsIncrease;
  }

  lemma ReceiveOrdered(n: Node, f: Frame)
    requires Ordered(n)
    ensures Ordered(ReceiveStep(n, f))
  {
    hide Ordered, Arrive, ReplyTo, Prefixed;
    var (w, new_) := Arrive(n.threshold, n.window, f.msgId);
    var m := n.(window := w, received := n.received + [f]);
    SameOrder(n, m);
    if new_ {
      m := m.(accepted := n.accepted + [f], barred := n.barred + [n.banned]);
      SameOrder(n, m);
      AddToQueueOrdered(m, ReplyTo(f));
      SameOrder(if f.kind == MESSAGE_CONFIRM_REQUEST then AddToQueue(m, ReplyTo(f)) else m, Dispatch(m, f));
    }
  }

  lemma StepOrdered(n: Node, a: Action)
    requires Ordered(n) && Enabled(n, a)
    ensures Ordered(Step(n, a))
  {
    hide Ordered, AddToQueue, ReceiveStep, DequeueStep, SettleStep, WriteOkStep, GiveUpStep, Outgoing;
    match a
    case Dequeue => DequeueOrdered(n);
    case Settle => SettleOrdered(n);
    case WriteOk => WriteOrdered(n);
    case GiveUp => GiveUpOrdered(n);
    case Requeue => RequeueOrdered(n);
    case Receive(f) => ReceiveOrdered(n, f);
    case Send(e) => AddToQueueOrdered(n, e);
    case PutTerminator(id) =>
      AddToQueueOrdered(n, Envelope(Message, id, None));
      SameOrder(AddToQueue(n, Envelope(Message, id, None)), Step(n, a));
    case _ => SameOrder(n, Step(n, a));
  }

  /**
   Envelopes are first taken in the order they were put: at a first attempt every earlier
   attempt was of an envelope put before, and any envelope put before that was never
   attempted has been dropped.
   */
  lemma FirstAttemptsInOrder(n: Node, j: nat)
    requires Conserved(n) && Ordered(n)
    requires j < |n.taken| && n.taken[j] !in n.taken[..j]
    ensures forall i :: 0 <= i < j ==> n.taken[i].no < n.taken[j].no
    ensures forall k :: 0 <= k < n.taken[j].no ==>
              Ticket(k, n.put[k]) in n.taken || Ticket(k, n.put[k]) in n.dropped
  {
    forall k | 0 <= k < n.taken[j].no
      ensures Ticket(k, n.put[k]) in n.taken || Ticket(k, n.put[k]) in n.dropped
    {
      var t := Ticket(k, n.put[k]);
      EachInOnePlace(n, t);
      if t in n.queue {
        var i :| 0 <= i < |n.queue| && n.queue[i] == t;
        assert n.taken[j] in n.taken;
      }
    }
  }

  // ----- no starvation -----

  lemma QueueExtends(n: Node, a: Action)
    requires Enabled(n, a) && a != GiveUp && a != Dequeue
    ensures Step(n, a).taken == n.taken && n.queue <= Step(n, a).queue
  {
    hide ReceiveStep, Outgoing;
    if a.Receive? {
      ReceiveFrame(n, a.f);
    }
  }

  lemma DequeueKeepsLine(n: Node)
    requires Enabled(n, Dequeue)
    ensures n.taken + n.queue == Step(n, Dequeue).taken + Step(n, Dequeue).queue
    ensures n.taken <= Step(n, Dequeue).taken
  {
    var m := DequeueStep(n);
    assert n.queue == [n.queue[0]] + n.queue[1..];
    assert m.taken + m.queue == n.taken + ([n.queue[0]] + n.queue[1..]);
  }

  /** Unless the queue is cleared, the taken envelopes followed by the queued ones only grow at the end. */
  lemma LineOnlyGrows(n: Node, a: Action)
    requires Enabled(n, a) && a != GiveUp
    ensures n.taken + n.queue <= Step(n, a).taken + Step(n, a).queue
    ensures n.taken <= Step(n, a).taken
  {
    hide Step;
    if a == Dequeue {
      DequeueKeepsLine(n);
    } else {
      QueueExtends(n, a);
    }
  }

  /** A run of one connection: each state follows from the one before by the action between them. */
  ghost predicate IsRun(ns: seq<Node>, actions: seq<Action>) {
    && |ns| == |actions| + 1
    && forall i :: 0 <= i < |actions| ==> Enabled(ns[i], actions[i]) && ns[i + 1] == Step(ns[i], actions[i])
  }

  lemma {:induction false} LineGrowsOverRun(ns: seq<Node>, actions: seq<Action>)
    requires IsRun(ns, actions) && GiveUp !in actions
    ensures var n, m := ns[0], ns[|actions|];
            n.taken + n.queue <= m.taken + m.queue && n.taken <= m.taken
    decreases |actions|
  {
    hide Step, Enabled;
    if actions != [] {
      var k := |actions| - 1;
      LineGrowsOverRun(ns[..k + 1], actions[..k]);
      LineOnlyGrows(ns[k], actions[k]);
    }
  }

  /**
   No starvation: over any run without a give-up, the envelope at position `k` waits for
   exactly `k` dequeues. After `d` of them it stands at `k - d`; it is the next one taken.
   */
  lemma TakenAfterExactlyKDequeues(ns: seq<Node>, actions: seq<Action>, k: nat)
    requires IsRun(ns, actions) && GiveUp !in actions && k < |ns[0].queue|
    ensures var n, m := ns[0], ns[|actions|];
            var d := |m.taken| - |n.taken|;
            d >= 0 && if d <= k then k - d < |m.queue| && m.queue[k - d] == n.queue[k]
                      else m.taken[|n.taken| + k] == n.queue[k]
  {
    LineGrowsOverRun(ns, actions);
    var n, m := ns[0], ns[|actions|];
    var line := m.taken + m.queue;
    assert (n.taken + n.queue)[|n.taken| + k] == n.queue[k] == line[|n.taken| + k];
  }

  // ----- how the send cycle ends -----

  /** An envelope without data, which ends the cycle, waits in the queue. */
  predicate TerminatorQueued(n: Node) {
    exists t :: t in n.queue && t.env.data == None
  }

  /** Once `Terminate` has run, a cycle about to dequeue finds something in the queue. */
  ghost predicate NeverAsleep(n: Node) {
    && (n.terminatorPut ==> n.terminated)
    && (n.terminatorPut && n.pc.Running? ==> TerminatorQueued(n))
  }

  lemma TerminatorStays(n: Node, e: Envelope)
    ensures TerminatorQueued(n) ==> TerminatorQueued(AddToQueue(n, e))
    ensures e.data == None ==> TerminatorQueued(AddToQueue(n, e))
  {
    var m := AddToQueue(n, e);
    assert m.queue[|n.queue|] == Ticket(|n.put|, e);
    if TerminatorQueued(n) {
      var t :| t in n.queue && t.env.data == None;
      assert t in m.queue;
    }
  }

  lemma ReceiveKeepsTerminator(n: Node, f: Frame)
    requires NeverAsleep(n)
    ensures NeverAsleep(ReceiveStep(n, f))
  {
    hide ReceiveStep;
    ReceiveFrame(n, f);
    if TerminatorQueued(n) {
      var t :| t in n.queue && t.env.data == None;
      assert t in ReceiveStep(n, f).queue;
    }
  }

  lemma SameQueue(n: Node, m: Node)
    requires m.queue == n.queue
    ensures TerminatorQueued(m) == TerminatorQueued(n)
  {
  }

  lemma StepNeverAsleep(n: Node, a: Action)
    requires NeverAsleep(n) && Enabled(n, a)
    ensures NeverAsleep(Step(n, a))
  {
    hide AddToQueue, ReceiveStep, GiveUpStep, Outgoing, TerminatorQueued;
    match a
    case Receive(f) => ReceiveKeepsTerminator(n, f);
    case Send(e) => AddKeepsTerminator(n, e);
    case PutTerminator(id) =>
      var e := Envelope(Message, id, None);
      TerminatorStays(n, e);
      SameQueue(AddToQueue(n, e), Step(n, a));
      PutFields(n, e);
    case GiveUp => GiveUpFields(n);
    case Dequeue =>
    case Requeue =>
    case _ => SameQueue(n, Step(n, a));
  }

  lemma PutFields(n: Node, e: Envelope)
    ensures var m := AddToQueue(n, e);
            m.terminated == n.terminated && m.terminatorPut == n.terminatorPut && m.pc == n.pc
  {
  }

  lemma AddKeepsTerminator(n: Node, e: Envelope)
    requires NeverAsleep(n)
    ensures NeverAsleep(AddToQueue(n, e))
  {
    TerminatorStays(n, e);
  }

  lemma GiveUpFields(n: Node)
    requires Enabled(n, GiveUp)
    ensures var m := GiveUpStep(n);
            m.terminated == n.terminated && m.terminatorPut == n.terminatorPut && m.pc == AtHead(None)
  {
  }

  /** A send-cycle action, as opposed to the receive cycle's and the calls from outside. */
  predicate OfSendCycle(a: Action) {
    !(a.Receive? || a.Control? || a.Send? || a.SetBan? || a.StoreTerminated? || a.PutTerminator?)
  }

  /** How many more actions the cycle can take once `Terminate` has run. */
  function Remaining(pc: Pc): nat {
    match pc
    case Finished(_) => 0
    case AtHead(_) => 1
    case Written(_) => 2
    case Failed(_) => 2
    case Prepared(_) => 3
    case Checked(_, _, _) => 4
    case Ready(_) => 5
    case Running(_) => 6
  }

  /**
   After `Terminate` the send cycle finishes within one pass: it always has a next action
   until it has finished, each one brings the end nearer, and nothing else moves it.
   */
  lemma CycleEnds(n: Node, a: Action)
    requires n.terminatorPut && NeverAsleep(n) && Enabled(n, a)
    ensures OfSendCycle(a) ==> Remaining(Step(n, a).pc) < Remaining(n.pc)
    ensures !OfSendCycle(a) ==> Step(n, a).pc == n.pc
  {
    hide ReceiveStep, Outgoing;
    if a.Receive? {
      ReceiveFrame(n, a.f);
    }
  }

  lemma CycleNotStuck(n: Node) returns (a: Action)
    requires n.terminatorPut && NeverAsleep(n) && !n.pc.Finished?
    ensures OfSendCycle(a) && Enabled(n, a)
  {
    a := match n.pc
      case AtHead(_) => EnterPass
      case Running(hand) => if hand.Some? then TakeHand else Dequeue
      case Ready(_) => Check
      case Checked(_, _, _) => Settle
      case Prepared(_) => WriteOk
      case Written(_) => Requeue
      case Failed(_) => Retry;
  }

  function CycleActions(actions: seq<Action>): nat {
    if actions == [] then 0
    else CycleActions(actions[..|actions| - 1]) + if OfSendCycle(actions[|actions| - 1]) then 1 else 0
  }

  /** Over any run that starts after `Terminate`, the send cycle takes at most six actions. */
  lemma {:induction false} AtMostOnePass(ns: seq<Node>, actions: seq<Action>)
    requires IsRun(ns, actions) && ns[0].terminatorPut && NeverAsleep(ns[0])
    ensures var m := ns[|actions|];
            m.terminatorPut && NeverAsleep(m) && CycleActions(actions) + Remaining(m.pc) <= Remaining(ns[0].pc) <= 6
    decreases |actions|
  {
    hide Step, Enabled, OfSendCycle, NeverAsleep;
    if actions != [] {
      var k := |actions| - 1;
      AtMostOnePass(ns[..k + 1], actions[..k]);
      CycleEnds(ns[k], actions[k]);
      StepNeverAsleep(ns[k], actions[k]);
      TerminatorPutStays(ns[k], actions[k]);
    }
  }

  lemma TerminatorPutStays(n: Node, a: Action)
    requires Enabled(n, a)
    ensures n.terminatorPut ==> Step(n, a).terminatorPut
  {
    hide ReceiveStep, Outgoing;
    if a.Receive? {
      ReceiveFrame(n, a.f);
    }
  }
}

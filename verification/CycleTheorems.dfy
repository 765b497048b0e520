/**
 The send cycle of the connection object, pass by pass, is a run of the step system, so all
 that holds in every run holds for it.
 */
module CycleTheorems {
  import opened FrameCodec
  import opened Envelopes
  import opened Node
  import opened NodeLaws
  import opened SenderLaws
  import opened TwoNodes
  import opened Connection

  /** `actions` lead from `n` to `m`, and all of them are the send cycle's own. */
  ghost predicate Leads(n: Node, actions: seq<Action>, m: Node)
    decreases |actions|
  {
    if actions == [] then n == m
    else
      && OfSendCycle(actions[0]) && Enabled(n, actions[0])
      && Leads(Step(n, actions[0]), actions[1..], m)
  }

  lemma LeadsOne(n: Node, a: Action)
    requires Enabled(n, a) && OfSendCycle(a)
    ensures Leads(n, [a], Step(n, a))
  {
    hide Enabled, Step;
    assert Leads(Step(n, a), [a][1..], Step(n, a));
  }

  lemma {:induction false} LeadsOn(n: Node, first: seq<Action>, m: Node, second: seq<Action>, k: Node)
    requires Leads(n, first, m) && Leads(m, second, k)
    ensures Leads(n, first + second, k)
    decreases |first|
  {
    hide Enabled, Step, OfSendCycle;
    if first == [] {
      assert first + second == second;
    } else {
      LeadsOn(Step(n, first[0]), first[1..], m, second, k);
      assert (first + second)[1..] == first[1..] + second;
    }
  }

  lemma LeadsThen(n: Node, first: seq<Action>, m: Node, a: Action)
    requires Leads(n, first, m) && Enabled(m, a) && OfSendCycle(a)
    ensures Leads(n, first + [a], Step(m, a))
  {
    hide Enabled, Step, OfSendCycle, Leads;
    LeadsOne(m, a);
    LeadsOn(n, first, m, [a], Step(m, a));
  }

  lemma FailureRun(n: Node, o: Outcome) returns (actions: seq<Action>)
    requires n.pc.Failed?
    ensures Leads(n, actions, AfterFailure(n, o))
  {
    hide Leads;
    var a := if o.giveUp then GiveUp else Retry;
    LeadsOne(n, a);
    actions := [a];
  }

  lemma AttemptRun(n: Node, o: Outcome) returns (actions: seq<Action>)
    requires n.pc.Ready?
    ensures Leads(n, actions, Attempt(n, o))
  {
    hide Leads, AfterFailure, AfterWrite, Outgoing;
    if !o.hasStream {
      LeadsOne(n, FindNoStream);
      var failed := Step(n, FindNoStream);
      var rest := FailureRun(failed, o);
      LeadsOn(n, [FindNoStream], failed, rest, AfterFailure(failed, o));
      return [FindNoStream] + rest;
    }
    LeadsOne(n, Check);
    actions := [Check];
    var m := Step(n, Check);
    if m.pc.Checked? {
      LeadsThen(n, actions, m, Settle);
      actions, m := actions + [Settle], Step(m, Settle);
    }
    if !m.pc.AtHead? {
      var rest := WriteRun(m, o);
      LeadsOn(n, actions, m, rest, AfterWrite(m, o));
      actions := actions + rest;
    }
  }

  lemma WriteRun(n: Node, o: Outcome) returns (actions: seq<Action>)
    requires n.pc.Prepared?
    ensures Leads(n, actions, AfterWrite(n, o))
  {
    hide Leads, AfterFailure, Outgoing;
    if o.writeOk {
      LeadsOne(n, WriteOk);
      actions := [WriteOk];
      var m := Step(n, WriteOk);
      if m.pc.Written? {
        LeadsThen(n, actions, m, Requeue);
        actions := actions + [Requeue];
      }
    } else {
      var failed := Step(n, WriteFail(o.reached));
      LeadsOne(n, WriteFail(o.reached));
      var rest := FailureRun(failed, o);
      LeadsOn(n, [WriteFail(o.reached)], failed, rest, AfterFailure(failed, o));
      actions := [WriteFail(o.reached)] + rest;
    }
  }

  lemma LeadsNowhere(n: Node)
    ensures Leads(n, [], n)
  {
  }

  lemma ConnectedRun(n: Node, o: Outcome) returns (actions: seq<Action>)
    requires n.pc.Running?
    ensures Leads(n, actions, Connected(n, o))
  {
    hide Leads, Attempt, DequeueStep;
    LeadsNowhere(n);
    if n.pc.hand.None? && n.queue == [] {
      return [];
    }
    DequeueOutcome(n);
    var a := if n.pc.hand.Some? then TakeHand else Dequeue;
    LeadsOne(n, a);
    actions := [a];
    var m := Step(n, a);
    if m.pc.Ready? {
      var rest := AttemptRun(m, o);
      LeadsOn(n, actions, m, rest, Attempt(m, o));
      actions := actions + rest;
    }
  }

  lemma DequeueOutcome(n: Node)
    ensures Enabled(n, Dequeue) ==> DequeueStep(n).pc.Ready? || DequeueStep(n).pc.Finished?
  {
  }

  /** Each pass is a run of send-cycle steps. */
  lemma PassRun(n: Node, o: Outcome) returns (actions: seq<Action>)
    requires AtRest(n.pc)
    ensures Leads(n, actions, Pass(n, o))
  {
    hide Leads, Connected;
    LeadsNowhere(n);
    if n.pc.Finished? {
      return [];
    }
    if n.pc.Running? {
      actions := ConnectedRun(n, o);
      return;
    }
    LeadsOne(n, EnterPass);
    actions := [EnterPass];
    var m := Step(n, EnterPass);
    if m.pc.Running? {
      if !o.connected {
        LeadsThen(n, actions, m, NoStreamYet);
        actions := actions + [NoStreamYet];
      } else {
        var rest := ConnectedRun(m, o);
        LeadsOn(n, actions, m, rest, Connected(m, o));
        actions := actions + rest;
      }
    }
  }

  /** The whole cycle is one. */
  lemma {:induction false} PassesRun(n: Node, outcomes: seq<Outcome>) returns (actions: seq<Action>)
    requires AtRest(n.pc)
    ensures Leads(n, actions, Passes(n, outcomes))
    decreases |outcomes|
  {
    hide Leads, Pass;
    LeadsNowhere(n);
    if outcomes == [] {
      return [];
    }
    var k := |outcomes| - 1;
    var first := PassesRun(n, outcomes[..k]);
    var m := Passes(n, outcomes[..k]);
    var last := PassRun(m, outcomes[k]);
    LeadsOn(n, first, m, last, Pass(m, outcomes[k]));
    actions := first + last;
  }

  lemma {:induction false} LeadsLocal(n: Node, actions: seq<Action>, m: Node)
    requires Leads(n, actions, m) && Local(n)
    ensures Local(m)
    decreases |actions|
  {
    hide Local, Enabled, Step, OfSendCycle;
    if actions != [] {
      StepLocal(n, actions[0]);
      LeadsLocal(Step(n, actions[0]), actions[1..], m);
    }
  }

  /** Running the cycle keeps every law of one end, whatever the outcomes. */
  lemma CycleKeepsLaws(n: Node, outcomes: seq<Outcome>)
    requires AtRest(n.pc) && Local(n)
    ensures Local(Passes(n, outcomes))
  {
    hide Local, Leads, Passes;
    var actions := PassesRun(n, outcomes);
    LeadsLocal(n, actions, Passes(n, outcomes));
  }

  lemma CycleKeepsBan(n: Node, a: Action)
    requires Enabled(n, a) && OfSendCycle(a)
    ensures Step(n, a).banned == n.banned
  {
    hide DequeueStep, CheckStep, SettleStep, WriteOkStep, GiveUpStep, Outgoing;
    if a.Dequeue? || a.Check? || a.Settle? || a.WriteOk? || a.GiveUp? {
      SamePut(n, a);
    }
  }

  lemma {:induction false} LeadsAddsNothing(n: Node, actions: seq<Action>, m: Node)
    requires Leads(n, actions, m)
    ensures FromOutside(m.put) == FromOutside(n.put) && m.banned == n.banned
    decreases |actions|
  {
    hide Enabled, Step, FromOutside;
    if actions != [] {
      StepFromOutside(n, actions[0]);
      CycleKeepsBan(n, actions[0]);
      LeadsAddsNothing(Step(n, actions[0]), actions[1..], m);
    }
  }

  /** The cycle puts nothing on the connection that did not come from outside. */
  lemma CycleAddsNothing(n: Node, outcomes: seq<Outcome>)
    requires AtRest(n.pc)
    ensures FromOutside(Passes(n, outcomes).put) == FromOutside(n.put) && Passes(n, outcomes).banned == n.banned
  {
    hide Leads, Passes, FromOutside;
    var actions := PassesRun(n, outcomes);
    LeadsAddsNothing(n, actions, Passes(n, outcomes));
  }

  // ----- what the passes do for the envelopes waiting -----

  /** The first half of an attempt: the confirm map is asked, and the envelope let go or its frame built. */
  function Asked(n: Node): Node
    requires n.pc.Ready?
  {
    var checked := Step(n, Check);
    if checked.pc.Checked? then Step(checked, Settle) else checked
  }

  lemma AskedKeeps(n: Node)
    requires n.pc.Ready?
    ensures Asked(n).dropped == n.dropped && Asked(n).droppedMessages == n.droppedMessages
    ensures Asked(n).pc.AtHead? || Asked(n).pc.Prepared?
  {
  }

  lemma WriteKeeps(n: Node, o: Outcome)
    requires n.pc.Prepared? && !o.giveUp
    ensures AfterWrite(n, o).dropped == n.dropped && AfterWrite(n, o).droppedMessages == n.droppedMessages
  {
    if o.writeOk {
      WrittenKeeps(n, o);
    } else {
      FailedWriteKeeps(n, o);
    }
  }

  lemma WrittenKeeps(n: Node, o: Outcome)
    requires n.pc.Prepared? && o.writeOk
    ensures AfterWrite(n, o).dropped == n.dropped && AfterWrite(n, o).droppedMessages == n.droppedMessages
  {
    hide Outgoing, AfterFailure;
  }

  lemma FailedWriteKeeps(n: Node, o: Outcome)
    requires n.pc.Prepared? && !o.writeOk && !o.giveUp
    ensures AfterWrite(n, o).dropped == n.dropped && AfterWrite(n, o).droppedMessages == n.droppedMessages
  {
    hide Outgoing;
  }

  lemma AttemptKeeps(n: Node, o: Outcome)
    requires n.pc.Ready? && !o.giveUp
    ensures Attempt(n, o).dropped == n.dropped && Attempt(n, o).droppedMessages == n.droppedMessages
  {
    hide AfterFailure, AfterWrite, Step;
    if o.hasStream {
      AttemptIs(n, o);
      AskedKeeps(n);
      hide Attempt, Asked;
      if Asked(n).pc.Prepared? {
        WriteKeeps(Asked(n), o);
      }
    } else {
      NoStreamKeeps(n, o);
    }
  }

  lemma NoStreamKeeps(n: Node, o: Outcome)
    requires n.pc.Ready? && !o.giveUp && !o.hasStream
    ensures Attempt(n, o).dropped == n.dropped && Attempt(n, o).droppedMessages == n.droppedMessages
  {
  }

  lemma AttemptIs(n: Node, o: Outcome)
    requires n.pc.Ready? && o.hasStream
    ensures Asked(n).pc.AtHead? ==> Attempt(n, o) == Asked(n)
    ensures Asked(n).pc.Prepared? ==> Attempt(n, o) == AfterWrite(Asked(n), o)
  {
    hide AfterWrite, Step;
  }

  lemma PassKeeps(n: Node, o: Outcome)
    requires AtRest(n.pc) && !o.giveUp
    ensures var m := Pass(n, o); m.dropped == n.dropped && m.droppedMessages == n.droppedMessages
  {
    hide Attempt;
    forall r: Node | r.pc.Ready?
      ensures Attempt(r, o).dropped == r.dropped && Attempt(r, o).droppedMessages == r.droppedMessages
    {
      AttemptKeeps(r, o);
    }
  }

  /** Nothing is dropped as long as no failure comes after the disconnect threshold. */
  lemma {:induction false} NothingDropped(n: Node, outcomes: seq<Outcome>)
    requires AtRest(n.pc) && forall o :: o in outcomes ==> !o.giveUp
    ensures var m := Passes(n, outcomes); m.dropped == n.dropped && m.droppedMessages == n.droppedMessages
    decreases |outcomes|
  {
    hide Pass;
    if outcomes != [] {
      var k := |outcomes| - 1;
      NothingDropped(n, outcomes[..k]);
      PassKeeps(Passes(n, outcomes[..k]), outcomes[k]);
    }
  }

  /** What is in hand, and what is queued behind it. */
  function Line(n: Node): seq<Ticket> {
    Hand(n.pc) + n.queue
  }

  /** The peer can be reached and the write goes well. */
  predicate Good(o: Outcome) {
    o.connected && o.hasStream && o.writeOk
  }

  /** The envelope is a Consensus envelope whose acknowledgement has come. */
  predicate Acknowledged(n: Node, e: Envelope) {
    e.kind == Consensus && e.msgId in n.confirm && n.confirm[e.msgId]
  }

  /** The frame of an envelope, with the byte of its kind. */
  function OnWire(e: Envelope): Frame
    requires e.data.Some?
  {
    Frame(match e.kind case Message => 0 case Consensus => 3 case ConfirmReply => 4, e.msgId, e.data.value)
  }

  lemma AskedOutcome(n: Node)
    requires n.pc.Ready?
    ensures var m, t := Asked(n), n.pc.t;
            && m.pc == (if Acknowledged(n, t.env) then AtHead(None) else Prepared(t))
            && m.terminated == n.terminated && m.sent == n.sent && m.queue == n.queue
            && m.retired == n.retired + (if Acknowledged(n, t.env) then [t] else [])
            && m.confirm == if Acknowledged(n, t.env) then n.confirm - {t.env.msgId}
                            else if t.env.kind != Consensus || t.env.msgId in n.confirm then n.confirm
                            else n.confirm[t.env.msgId := false]
  {
  }

  lemma GoodWrite(n: Node, o: Outcome)
    requires n.pc.Prepared? && n.pc.t.env.data.Some? && o.writeOk
    ensures var m, t := AfterWrite(n, o), n.pc.t;
            && m.pc == AtHead(None) && m.terminated == n.terminated && m.retired == n.retired
            && m.sent == n.sent + [OnWire(t.env)] && m.confirm == n.confirm
            && m.queue == n.queue + (if t.env.kind != Consensus then [] else [t])
  {
    hide AfterFailure;
  }

  /** A good attempt retires an acknowledged envelope, and else writes it and puts a Consensus one back. */
  lemma GoodAttempt(n: Node, o: Outcome)
    requires n.pc.Ready? && n.pc.t.env.data.Some? && o.hasStream && o.writeOk
    ensures var m, t := Attempt(n, o), n.pc.t;
            && m.pc == AtHead(None) && m.terminated == n.terminated
            && m.retired == n.retired + (if Acknowledged(n, t.env) then [t] else [])
            && m.sent == n.sent + (if Acknowledged(n, t.env) then [] else [OnWire(t.env)])
            && m.queue == n.queue + (if Acknowledged(n, t.env) || t.env.kind != Consensus then [] else [t])
            && m.confirm == if Acknowledged(n, t.env) then n.confirm - {t.env.msgId}
                            else if t.env.kind != Consensus || t.env.msgId in n.confirm then n.confirm
                            else n.confirm[t.env.msgId := false]
  {
    AttemptIs(n, o);
    AskedOutcome(n);
    hide Attempt, Asked, AfterWrite, OnWire;
    if Asked(n).pc.Prepared? {
      GoodWrite(Asked(n), o);
    }
  }

  /** The cycle goes on to its queue: it is asleep there, or it is neither terminated nor without a stream. */
  predicate GoesOn(n: Node, o: Outcome) {
    if n.pc.AtHead? then !n.terminated && o.connected else n.pc == Running(None)
  }

  /** A pass with the stream there takes the first of the line, and attempts to send it. */
  lemma FirstOfLine(n: Node, o: Outcome) returns (ready: Node)
    requires GoesOn(n, o) && Line(n) != [] && Line(n)[0].env.data.Some?
    ensures ready.pc == Ready(Line(n)[0]) && Line(n) == [Line(n)[0]] + ready.queue && Pass(n, o) == Attempt(ready, o)
    ensures ready.terminated == n.terminated && ready.retired == n.retired && ready.sent == n.sent
    ensures ready.confirm == n.confirm && ready.dropped == n.dropped && ready.droppedMessages == n.droppedMessages
  {
    hide Attempt;
    var entered := if n.pc.AtHead? then Step(n, EnterPass) else n;
    ready := if n.pc.hand.Some? then Step(entered, TakeHand) else Step(entered, Dequeue);
  }

  /** A good pass does that for the first envelope of the line. */
  lemma GoodPass(n: Node, o: Outcome)
    requires GoesOn(n, o) && Line(n) != [] && Line(n)[0].env.data.Some? && Good(o)
    ensures var m, t := Pass(n, o), Line(n)[0];
            && m.pc == AtHead(None) && m.terminated == n.terminated
            && m.retired == n.retired + (if Acknowledged(n, t.env) then [t] else [])
            && m.sent == n.sent + (if Acknowledged(n, t.env) then [] else [OnWire(t.env)])
            && m.queue == Line(n)[1..] + (if Acknowledged(n, t.env) || t.env.kind != Consensus then [] else [t])
            && m.confirm == if Acknowledged(n, t.env) then n.confirm - {t.env.msgId}
                            else if t.env.kind != Consensus || t.env.msgId in n.confirm then n.confirm
                            else n.confirm[t.env.msgId := false]
  {
    var ready := FirstOfLine(n, o);
    hide Attempt, Pass, OnWire;
    GoodAttempt(ready, o);
  }

  /** With nothing in the line the pass falls asleep; at nil data it ends the cycle. */
  lemma PassWithoutData(n: Node, o: Outcome)
    requires GoesOn(n, o) && (Line(n) != [] ==> n.pc != AtHead(Some(Line(n)[0])) && Line(n)[0].env.data == None)
    ensures var m := Pass(n, o);
            && m.sent == n.sent && m.confirm == n.confirm && m.dropped == n.dropped && m.retired == n.retired
            && (if Line(n) == [] then m.pc == Running(None) && m.queue == []
                else m.pc == Finished(None) && m.queue == Line(n)[1..] && m.ended == n.ended + [Line(n)[0]])
  {
    hide Attempt;
  }

  lemma WriteFails(n: Node, o: Outcome)
    requires n.pc.Prepared? && !o.writeOk && o.giveUp
    ensures var m := AfterWrite(n, o);
            && m.dropped == n.dropped + [n.pc.t] + n.queue && m.droppedMessages == n.droppedMessages + 1 + |n.queue|
            && m.pc == AtHead(None) && m.queue == []
  {
    hide Outgoing;
  }

  lemma NoStreamGivesUp(n: Node, o: Outcome)
    requires n.pc.Ready? && !o.hasStream && o.giveUp
    ensures var m := Attempt(n, o);
            && m.dropped == n.dropped + [n.pc.t] + n.queue && m.droppedMessages == n.droppedMessages + 1 + |n.queue|
            && m.pc == AtHead(None) && m.queue == []
  {
  }

  lemma FailedAttemptGivesUp(n: Node, o: Outcome)
    requires n.pc.Ready? && o.giveUp && (!o.hasStream || (!Acknowledged(n, n.pc.t.env) && !o.writeOk))
    ensures var m := Attempt(n, o);
            && m.dropped == n.dropped + [n.pc.t] + n.queue && m.droppedMessages == n.droppedMessages + 1 + |n.queue|
            && m.pc == AtHead(None) && m.queue == []
  {
    hide AfterFailure, AfterWrite, Asked, Attempt;
    if o.hasStream {
      AttemptIs(n, o);
      AskedOutcome(n);
      AskedKeeps(n);
      WriteFails(Asked(n), o);
    } else {
      NoStreamGivesUp(n, o);
    }
  }

  /** A failure after the threshold drops the whole line, and counts it. */
  lemma FailedPassGivesUp(n: Node, o: Outcome)
    requires GoesOn(n, o) && Line(n) != [] && Line(n)[0].env.data.Some?
    requires o.giveUp && (!o.hasStream || (!Acknowledged(n, Line(n)[0].env) && !o.writeOk))
    ensures var m := Pass(n, o);
            && m.dropped == n.dropped + Line(n) && m.droppedMessages == n.droppedMessages + |Line(n)|
            && Line(m) == [] && m.pc == AtHead(None)
  {
    var ready := FirstOfLine(n, o);
    hide Attempt, Pass;
    FailedAttemptGivesUp(ready, o);
  }

  /** The Consensus envelopes of a line. */
  function Again(ts: seq<Ticket>): seq<Ticket> {
    if ts == [] then []
    else
      var k := |ts| - 1;
      Again(ts[..k]) + if ts[k].env.kind == Consensus then [ts[k]] else []
  }

  /** The frames of a line of envelopes with data. */
  function AllOnWire(ts: seq<Ticket>): (fs: seq<Frame>)
    requires forall t :: t in ts ==> t.env.data.Some?
  {
    seq(|ts|, i requires 0 <= i < |ts| => OnWire(ts[i].env))
  }

  lemma LinesMoveOn(line: seq<Ticket>, k: nat, behind: seq<Ticket>)
    requires k < |line| && forall t :: t in line[..k + 1] ==> t.env.data.Some?
    ensures line[k] in line[..k + 1] && (line[k..] + behind)[0] == line[k]
    ensures forall t :: t in line[..k] ==> t in line[..k + 1]
    ensures (line[k..] + behind)[1..] == line[k + 1..] + behind
    ensures Again(line[..k + 1]) == Again(line[..k]) + if line[k].env.kind == Consensus then [line[k]] else []
    ensures AllOnWire(line[..k + 1]) == AllOnWire(line[..k]) + [OnWire(line[k].env)]
  {
    hide OnWire;
    assert line[..k + 1][..k] == line[..k];
  }

  /**
   Between `n` and `m` the first `k` envelopes of the line were written, in order; the Consensus envelopes
   among them wait behind the rest, and nothing was acknowledged.
   */
  ghost predicate Served(n: Node, m: Node, k: nat)
    requires k <= |Line(n)| && forall t :: t in Line(n)[..k] ==> t.env.data.Some?
  {
    && m.pc.AtHead? && !m.terminated && m.retired == n.retired
    && (forall id :: id in m.confirm ==> !m.confirm[id])
    && m.sent == n.sent + AllOnWire(Line(n)[..k])
    && Line(m) == Line(n)[k..] + Again(Line(n)[..k])
  }

  lemma ServedNone(n: Node)
    requires n.pc.AtHead? && !n.terminated && forall id :: id in n.confirm ==> !n.confirm[id]
    ensures Served(n, n, 0)
  {
    hide Line;
    assert Line(n)[..0] == [] && Line(n)[0..] == Line(n);
  }

  lemma ServesNext(n: Node, m: Node, o: Outcome, k: nat)
    requires k < |Line(n)| && Good(o)
    requires forall t :: t in Line(n)[..k] || t in Line(n)[..k + 1] ==> t.env.data.Some?
    requires Served(n, m, k)
    ensures Served(n, Pass(m, o), k + 1)
  {
    hide Pass, OnWire, AllOnWire, Again, Line;
    LinesMoveOn(Line(n), k, Again(Line(n)[..k]));
    GoodPass(m, o);
    LineIs(Pass(m, o));
  }

  lemma LineIs(n: Node)
    requires n.pc == AtHead(None)
    ensures Line(n) == n.queue
  {
  }

  /**
   While no acknowledgement has come, k good passes write the first k envelopes of the line, in order,
   and put the Consensus envelopes among them back behind the rest.
   */
  lemma {:induction false} GoodPassesServe(n: Node, outcomes: seq<Outcome>)
    requires n.pc.AtHead? && !n.terminated && |outcomes| <= |Line(n)|
    requires forall o :: o in outcomes ==> Good(o)
    requires forall t :: t in Line(n)[..|outcomes|] ==> t.env.data.Some?
    requires forall id :: id in n.confirm ==> !n.confirm[id]
    ensures Served(n, Passes(n, outcomes), |outcomes|)
    decreases |outcomes|
  {
    hide Pass, Served, Line;
    if outcomes == [] {
      ServedNone(n);
    } else {
      var k := |outcomes| - 1;
      assert forall t :: t in Line(n)[..k] ==> t in Line(n)[..k + 1];
      GoodPassesServe(n, outcomes[..k]);
      ServesNext(n, Passes(n, outcomes[..k]), outcomes[k], k);
    }
  }
}

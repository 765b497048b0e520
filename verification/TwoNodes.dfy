/**
 Two ends of one connection, joined by a channel that may lose, delay, repeat and reorder
 frames but not make them up: a frame can be read at one end whenever the other end has
 written it at some time before. The theorems hold in every reachable state.
 */
module TwoNodes {
  import opened Bytes
  import opened Envelopes
  import opened SpamWindow
  import opened Node
  import opened NodeLaws
  import opened SenderLaws
  import opened ProtocolLaws

  datatype World = World(a: Node, b: Node)

  datatype Move = AtA(action: Action) | AtB(action: Action)

  /** A frame is only read if the peer may have written it. */
  predicate Available(peer: Node, action: Action) {
    action.Receive? ==> action.f in peer.sent
  }

  predicate MoveEnabled(w: World, m: Move) {
    match m
    case AtA(action) => Enabled(w.a, action) && Available(w.b, action)
    case AtB(action) => Enabled(w.b, action) && Available(w.a, action)
  }

  function MoveStep(w: World, m: Move): World
    requires MoveEnabled(w, m)
  {
    match m
    case AtA(action) => w.(a := Step(w.a, action))
    case AtB(action) => w.(b := Step(w.b, action))
  }

  predicate Start(w: World) {
    && w.a == Initial(w.a.threshold, w.a.uniqId) && w.a.threshold >= 1
    && w.b == Initial(w.b.threshold, w.b.uniqId) && w.b.threshold >= 1
  }

  ghost predicate IsWorldRun(ws: seq<World>, moves: seq<Move>) {
    && |ws| == |moves| + 1
    && Start(ws[0])
    && forall i :: 0 <= i < |moves| ==> MoveEnabled(ws[i], moves[i]) && ws[i + 1] == MoveStep(ws[i], moves[i])
  }

  ghost predicate Reachable(w: World) {
    exists ws, moves :: IsWorldRun(ws, moves) && ws[|moves|] == w
  }

  lemma StartReachable(w: World)
    requires Start(w)
    ensures Reachable(w)
  {
    assert IsWorldRun([w], []);
  }

  lemma MoveReachable(w: World, m: Move)
    requires Reachable(w) && MoveEnabled(w, m)
    ensures Reachable(MoveStep(w, m))
  {
    hide MoveEnabled, MoveStep, Start;
    var ws, moves :| IsWorldRun(ws, moves) && ws[|moves|] == w;
    var ws', moves' := ws + [MoveStep(w, m)], moves + [m];
    assert IsWorldRun(ws', moves') by {
      assert ws'[0] == ws[0];
      forall i | 0 <= i < |moves'|
        ensures MoveEnabled(ws'[i], moves'[i]) && ws'[i + 1] == MoveStep(ws'[i], moves'[i])
      {
        if i < |moves| {
          assert ws'[i] == ws[i] && ws'[i + 1] == ws[i + 1] && moves'[i] == moves[i];
        }
      }
    }
    assert ws'[|moves'|] == MoveStep(w, m);
  }

  // ----- the invariant -----

  /** What each end keeps by itself. */
  ghost predicate Local(n: Node) {
    && n.threshold >= 1
    && Conserved(n) && HandSound(n) && AllBacked(n) && AllWentOut(n)
    && RepliesExact(n) && AcksEarned(n) && ConfirmsEarned(n) && RequestsRegistered(n)
    && WindowTracks(n) && DeliveriesExact(n)
    && Ordered(n) && NeverAsleep(n)
    && (DistinctIds(n.put) ==> MapExact(n))
  }

  lemma InitialLocal(threshold: nat, uniqId: uint32)
    requires threshold >= 1
    ensures Local(Initial(threshold, uniqId))
  {
    var n := Initial(threshold, uniqId);
    assert Conserved(n) by {
      CountNone();
    }
    assert WindowTracks(n) by {
      assert Ids([]) == [];
      RunNothing(threshold);
    }
    assert RetiredIds(n) == {};
  }

  lemma ThresholdFixed(n: Node, a: Action)
    requires Enabled(n, a)
    ensures Step(n, a).threshold == n.threshold
  {
    hide ReceiveStep;
    if a.Receive? {
      ReceiveFrame(n, a.f);
    } else {
      ReceiverUntouched(n, a);
      hide Step;
    }
  }

  lemma PrefixDistinct(put: seq<Envelope>, more: seq<Envelope>)
    requires put <= more && DistinctIds(more)
    ensures DistinctIds(put)
  {
  }

  lemma TakenWerePut(n: Node)
    requires Ordered(n)
    ensures forall t :: t in n.taken ==> t.no < |n.put|
  {
  }

  lemma StepLocal(n: Node, a: Action)
    requires Local(n) && Enabled(n, a)
    ensures Local(Step(n, a))
  {
    hide Step, Enabled, Conserved, HandSound, AllBacked, AcksEarned, ConfirmsEarned, RequestsRegistered;
    hide WindowTracks, DeliveriesExact, Ordered, NeverAsleep, MapExact, DistinctIds, AllWentOut, RepliesExact;
    ThresholdFixed(n, a);
    StepConserves(n, a);
    StepHandSound(n, a);
    StepBacked(n, a);
    TakenWerePut(n);
    StepWentOut(n, a);
    StepRepliesExact(n, a);
    StepAcksEarned(n, a);
    StepConfirmsEarned(n, a);
    StepRegistered(n, a);
    StepWindowTracks(n, a);
    StepDeliveries(n, a);
    StepOrdered(n, a);
    StepNeverAsleep(n, a);
    PutOnlyGrows(n, a);
    if DistinctIds(Step(n, a).put) {
      PrefixDistinct(n.put, Step(n, a).put);
      StepMapExact(n, a);
    }
  }

  /** Whatever `reader` has accepted, `writer` has written. */
  predicate NoForgery(writer: Node, reader: Node) {
    forall f :: f in reader.accepted ==> f in writer.sent
  }

  ghost predicate Invariant(w: World) {
    Local(w.a) && Local(w.b) && NoForgery(w.a, w.b) && NoForgery(w.b, w.a)
  }

  lemma StepNoForgery(n: Node, a: Action, peer: Node)
    requires Enabled(n, a) && Available(peer, a)
    requires NoForgery(n, peer) && NoForgery(peer, n)
    ensures NoForgery(Step(n, a), peer) && NoForgery(peer, Step(n, a))
  {
    PutOnlyGrows(n, a);
    SentOnlyGrows(n, a);
    if a.Receive? {
      ReceiveHistory(n, a.f);
    } else {
      ReceiverUntouched(n, a);
    }
    hide Step, Enabled;
  }

  lemma SentOnlyGrows(n: Node, a: Action)
    requires Enabled(n, a)
    ensures forall f :: f in n.sent ==> f in Step(n, a).sent
  {
    PutOnlyGrows(n, a);
    if a.Control? {
      assert Step(n, a).sent == n.sent + [a.f];
    }
    hide Step, Outgoing;
  }

  lemma StepInvariant(w: World, m: Move)
    requires Invariant(w) && MoveEnabled(w, m)
    ensures Invariant(MoveStep(w, m))
  {
    hide Local, NoForgery, Step, Enabled, Available;
    match m
    case AtA(action) =>
      StepLocal(w.a, action);
      StepNoForgery(w.a, action, w.b);
    case AtB(action) =>
      StepLocal(w.b, action);
      StepNoForgery(w.b, action, w.a);
  }

  lemma {:induction false} RunInvariant(ws: seq<World>, moves: seq<Move>, i: nat)
    requires IsWorldRun(ws, moves) && i <= |moves|
    ensures Invariant(ws[i])
  {
    hide MoveEnabled, MoveStep, Local;
    if i == 0 {
      InitialLocal(ws[0].a.threshold, ws[0].a.uniqId);
      InitialLocal(ws[0].b.threshold, ws[0].b.uniqId);
    } else {
      RunInvariant(ws, moves, i - 1);
      StepInvariant(ws[i - 1], moves[i - 1]);
    }
  }

  lemma ReachableInvariant(w: World)
    requires Reachable(w)
    ensures Invariant(w)
  {
    hide MoveEnabled, MoveStep, Start, Invariant;
    var ws, moves :| IsWorldRun(ws, moves) && ws[|moves|] == w;
    RunInvariant(ws, moves, |moves|);
  }

  /** The two ends are alike: `s` and `r` are the sending and the receiving end of `w`, either way round. */
  predicate Ends(w: World, s: Node, r: Node) {
    (s == w.a && r == w.b) || (s == w.b && r == w.a)
  }
}

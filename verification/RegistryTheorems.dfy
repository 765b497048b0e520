/** What holds in every reachable state of the registry, up to `Stop`. */
module RegistryTheorems {
  import opened Bytes
  import opened Envelopes
  import opened Registry
  import opened RegistryLaws
  import opened PostponedMessages
  import opened MessageLedger
  import opened BanAgreement

  ghost predicate Invariant(s: State) {
    && Registering(s) && Early(s) && Waiting(s) && Ledger(s) && OutsideOnly(s) && BansFollow(s) && ListSound(s)
    && (!s.intake.overtaken ==> Numbered(s))
  }

  lemma StartInvariant(self: PeerId)
    ensures Invariant(Start(self))
  {
    var s := Start(self);
    assert forall p :: !HasPlace(s, p);
    assert Numbered(s);
    hide Numbered, HasPlace;
    NothingPlaced(s);
  }

  lemma StepInvariant(s: State, a: Action)
    requires Invariant(s) && Enabled(s, a)
    ensures Invariant(Step(s, a))
  {
    assert CallbacksSound(s);
    hide Step, Enabled, Registering, Early, Numbered, Waiting, Ledger, OutsideOnly, BansFollow, ListSound;
    StepRegisters(s, a);
    StepEarly(s, a);
    if !Step(s, a).intake.overtaken {
      StepNumbered(s, a);
    }
    StepWaits(s, a);
    StepLedger(s, a);
    StepOutsideOnly(s, a);
    StepBans(s, a);
    StepListSound(s, a);
  }

  lemma {:induction false} RunInvariant(ss: seq<State>, actions: seq<Action>, i: nat)
    requires IsRun(ss, actions) && i <= |actions|
    ensures Invariant(ss[i])
  {
    hide Enabled, Step, Invariant;
    if i == 0 {
      StartInvariant(ss[0].self);
    } else {
      RunInvariant(ss, actions, i - 1);
      StepInvariant(ss[i - 1], actions[i - 1]);
    }
  }

  lemma ReachableInvariant(s: State)
    requires Reachable(s)
    ensures Invariant(s)
  {
    hide Enabled, Step, Invariant;
    var ss, actions :| IsRun(ss, actions) && ss[|actions|] == s;
    RunInvariant(ss, actions, |actions|);
  }

  lemma InvariantRegisters(s: State)
    requires Invariant(s)
    ensures Registering(s) && (!s.intake.overtaken ==> Numbered(s))
  {
    hide Registering, Early, Waiting, Ledger, OutsideOnly, BansFollow, ListSound, Numbered;
  }

  lemma InvariantListSound(s: State)
    requires Invariant(s)
    ensures ListSound(s) && OutsideOnly(s) && Ledger(s)
  {
    hide Registering, Early, Waiting, Ledger, OutsideOnly, BansFollow, ListSound, Numbered;
  }

  // ----- messages -----

  /**
   No message is stranded: when messages wait for the key of a connection, a recovery callback of
   that very connection for the key is still to come - exactly if the key is not the empty one.
   */
  lemma NoMessageStranded(s: State, id: PeerId)
    requires Reachable(s) && id in s.conns && MessagesFor(s, s.conns[id].key) != []
    ensures s.conns[id].key in s.conns[id].callbacks <==> s.conns[id].key != ""
  {
    ReachableInvariant(s);
    hide Reachable, Ledger, BansFollow, Registering, Early, Numbered, LookupSound;
    AtPlaceOk(s, Entered(id));
    assert WaitOk(s, s.conns[id]);
  }

  /** The messages among `ts` that Send takes from a connection that is not banned. */
  function Sendable(ts: seq<Ticket>): seq<Ticket> {
    if ts == [] then []
    else (if ts[0].env.data == None then [] else [ts[0]]) + Sendable(ts[1..])
  }

  /** What `c` accepts of `ts`. */
  function Accepted(c: Conn, ts: seq<Ticket>): seq<Ticket> {
    if c.banned then [] else Sendable(ts)
  }

  lemma AcceptedCons(c: Conn, ts: seq<Ticket>, p: Place)
    requires ts != []
    ensures Accepted(c, ts)
            == (if SendFate(c, p, ts[0]) == Handed(p) then [ts[0]] else []) + Accepted(Given(c, ts[0]), ts[1..])
  {
  }

  lemma {:induction false} FlushGives(s: State, p: Place, key: Key)
    requires HasPlace(s, p)
    ensures HandedTo(Flush(s, p, key), p) == HandedTo(s, p) + Accepted(ConnAt(s, p), MessagesFor(s, key))
    decreases |MessagesFor(s, key)|
  {
    var ts := MessagesFor(s, key);
    if ts == [] {
      NoneSendable();
    } else {
      hide HandedTo, HandOver, WithConn, HasPlace, ConnAt, Accepted, SendFate, Given, MessagesFor;
      var m, one := Popped(s, key), FlushOne(s, p, key);
      PoppedFrame(s, p, key);
      HandOverFrame(m, p, ts[0]);
      OnlyAtHas(m, one, p, Given(ConnAt(m, p), ts[0]));
      HandOverGives(m, p, ts[0]);
      SameHanded(s, m, p);
      AcceptedCons(ConnAt(s, p), ts, p);
      FlushGives(one, p, key);
      Regroup(HandedTo(s, p), if SendFate(ConnAt(s, p), p, ts[0]) == Handed(p) then [ts[0]] else [],
              Accepted(ConnAt(one, p), ts[1..]));
    }
  }

  lemma NoneSendable()
    ensures Sendable([]) == []
  {
  }

  lemma Regroup(a: seq<Ticket>, b: seq<Ticket>, c: seq<Ticket>)
    ensures (a + b) + c == a + (b + c)
  {
  }

  lemma SameHanded(s: State, s': State, p: Place)
    requires s'.conns == s.conns && s'.orphans == s.orphans
    ensures HandedTo(s', p) == HandedTo(s, p)
  {
  }

  /**
   The callback hands everything that waits for the key to its connection, in order, behind what
   the connection was handed before; only a connection banned already refuses it. A ban of the
   key itself comes too late for these messages. Of the connections only this one changes.
   */
  lemma CallbackHandsOver(s: State, p: Place, key: Key)
    requires Enabled(s, Recovered(p, key))
    ensures var s' := Step(s, Recovered(p, key));
            && MessagesFor(s', key) == [] && HasPlace(s', p) && OnlyAt(s, s', p, ConnAt(s', p))
            && HandedTo(s', p) == HandedTo(s, p) + Accepted(ConnAt(s, p), MessagesFor(s, key))
            && ConnAt(s', p).banned == (ConnAt(s, p).banned || IsBanned(s, key))
  {
    RecoveredFrame(s, p, key);
    RecoveredGives(s, p, key);
    hide RecoveredStep;
  }

  lemma RecoveredGives(s: State, p: Place, key: Key)
    requires HasPlace(s, p)
    ensures HandedTo(RecoveredStep(s, p, key), p)
            == HandedTo(s, p) + Accepted(ConnAt(s, p), MessagesFor(s, key))
  {
    var c := ConnAt(s, p).(callbacks := ConnAt(s, p).callbacks - multiset{key});
    WithConnFrame(s, p, c);
    FlushGives(CallbackTaken(s, p, key), p, key);
    hide Flush, Sendable;
    var f := Flush(CallbackTaken(s, p, key), p, key);
    WithConnFrame(f, p, ConnAt(f, p).(banned := true));
    hide WithConn;
  }

  /**
   No message is lost or duplicated: each one given to SendMessageToPeer for a key is either
   with the call that is still looking for a connection, or once in the list for the key, or
   once with one connection, in the maps or displaced from them, or was refused. The connection
   carries the key, unless its key was replaced by another.
   */
  lemma MessageInOnePlace(s: State, no: nat)
    requires Reachable(s) && no < |s.submitted|
    ensures no in s.fate
    ensures var t, key := Ticket(no, s.submitted[no].env), s.submitted[no].key;
            && (s.fate[no] == InFlight <==> s.holder.Sending? && s.holder.t == t)
            && (forall k :: t in MessagesFor(s, k) <==> k == key && s.fate[no] == Postponed)
            && (forall p :: t in HandedTo(s, p) <==> s.fate[no] == Handed(p))
            && (forall p :: t in HandedTo(s, p) ==> HasPlace(s, p) && Carries(ConnAt(s, p), key))
            && (s.fate[no] == IgnoredEmpty ==> t.env.data == None)
    ensures forall k :: Increasing(MessagesFor(s, k))
    ensures forall p :: NoRepeats(HandedTo(s, p))
  {
    ReachableInvariant(s);
    hide Reachable, Registering, Early, Waiting, OutsideOnly, BansFollow, ListSound, Numbered, HandedTo, Carries;
    var loose := Loose(s);
    var t, key := Ticket(no, s.submitted[no].env), s.submitted[no].key;
    assert FateOk(s, loose, no);
    forall k ensures t in MessagesFor(s, k) <==> k == key && s.fate[no] == Postponed {
      assert PostponedOk(s, loose, k, t);
    }
    forall p ensures t in HandedTo(s, p) <==> s.fate[no] == Handed(p) {
      assert HandedOk(s, loose, p, t);
    }
    forall p | t in HandedTo(s, p) ensures HasPlace(s, p) && Carries(ConnAt(s, p), key) {
      assert HandedOk(s, loose, p, t);
    }
  }

  // ----- numbers and bans -----

  /**
   Numbers 0, 1, 2, ... and connections correspond one to one, and each connection has the
   number it is found under, exactly as long as there are at most 2^32 connections - unless a
   registration was overtaken. `RegistrationTheorems` says when that is.
   */
  lemma NumbersMatchConnections(s: State)
    requires Reachable(s) && !s.intake.overtaken
    ensures Bijective(s) <==> |s.conns| <= TWO_32
  {
    ReachableInvariant(s);
    hide Reachable, Registering, Early, Waiting, Ledger, OutsideOnly, BansFollow, ListSound;
    assert NumberOk(s, TWO_32) ==> |s.conns| <= TWO_32;
  }

  /**
   With nothing under way for it, a keyed connection is banned exactly if the list says so for
   its key, provided no other connection carries the key, no connection's key was replaced, and no
   ban or unban of the empty key has found a connection. `BanTheorems` says when that can fail.
   */
  lemma BanFlagsAgree(s: State, id: PeerId)
    requires Reachable(s) && !s.strayBan && NoneRekeyed(s)
    requires id in s.conns && s.conns[id].key != "" && AtMostOne(s, s.conns[id].key)
    requires s.conns[id].key !in s.conns[id].callbacks
    requires !(s.holder.Banning? && s.holder.key == s.conns[id].key)
    ensures s.conns[id].banned <==> IsBanned(s, s.conns[id].key)
  {
    ReachableInvariant(s);
    hide Reachable, Registering, Early, Waiting, Ledger, OutsideOnly, Numbered;
    assert FlagOk(s, id);
  }

  // ----- why the empty key is excluded -----

  /** A message for the empty key, sent before there is any connection, waits without a callback. */
  lemma EmptyKeyStrands(self: PeerId, peer: PeerId, env: Envelope) returns (s: State)
    requires env.kind != ConfirmReply
    ensures Reachable(s) && !s.intake.overtaken && peer in s.conns && s.conns[peer] == NewConn(0)
    ensures MessagesFor(s, s.conns[peer].key) != []
  {
    hide Reachable;
    s := Start(self);
    StartReachable(self);
    s := Do(s, Started);
    s := Do(s, SendMessage("", env));
    s := Do(s, NoneFound);
    s := Do(s, NoneFound);
    s := Do(s, OnConnect(peer));
    s := Do(s, Count);
    s := Do(s, Enter);
  }

  lemma Do(s: State, a: Action) returns (s': State)
    requires Reachable(s) && Enabled(s, a)
    ensures Reachable(s') && s' == Step(s, a)
  {
    StepReachable(s, a);
    s' := Step(s, a);
  }
}

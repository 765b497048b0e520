/**
 The calls of the peer service as steps of the registry that nothing comes between, and what
 they leave alone.
 */
module PeerCalls {
  import opened Bytes
  import opened Envelopes
  import opened Registry
  import opened RegistryLaws
  import opened PostponedMessages
  import opened RegistryTheorems
  import opened RegistrationTheorems

  /** A reachable state between two calls, with nothing overtaken. */
  ghost predicate BetweenCalls(s: State) {
    Reachable(s) && s.holder.Free? && s.intake == Intake(s.intake.started, Nobody, Nobody, false) && s.orphans == []
  }

  /** SendMessageToPeer finds connection `id`. */
  function SentTo(s: State, key: Key, env: Envelope, id: PeerId): State
    requires id in s.conns
  {
    HandOver(SubmitStep(s, key, env), Entered(id), Ticket(|s.submitted|, env)).(holder := Free)
  }

  /** SendMessageToPeer finds none. */
  function Stored(s: State, key: Key, env: Envelope): State {
    StoreStep(SubmitStep(s, key, env), key, Ticket(|s.submitted|, env)).(holder := Free)
  }

  /** BanPeer or RemoveFromBanList finds connection `id`. */
  function BanFound(s: State, key: Key, on: bool, id: PeerId): State
    requires id in s.conns
  {
    SetBan(BanListStep(s, key, on), Entered(id), on).(holder := Free, strayBan := s.strayBan || key == "")
  }

  function BanNotFound(s: State, key: Key, on: bool): State {
    BanListStep(s, key, on).(holder := Free)
  }

  /** A bootstrap peer, or an entry of a peer list. */
  function Connected(s: State, id: PeerId): State {
    if id == s.self || id in s.conns then s else AddConn(s, id, s.totalPeers)
  }

  /** An inbound stream. */
  function Streamed(s: State, id: PeerId): State {
    if id in s.conns then s else AddConn(s, id, s.totalPeers)
  }

  function AllConnected(s: State, ids: seq<PeerId>): State {
    if ids == [] then s else Connected(AllConnected(s, ids[..|ids| - 1]), ids[|ids| - 1])
  }

  /** `New` returns. */
  function WithStarted(s: State): State {
    s.(intake := s.intake.(started := true))
  }

  /** A key handler, and then its callback. */
  function KeyRecovered(s: State, id: PeerId, key: Key): State
    requires id in s.conns
  {
    RecoveredStep(SetKeyStep(s, Entered(id), key), Entered(id), key)
  }

  // ----- they are runs of the registry's steps -----

  /** The same state with the connections `left` still to be looked at. */
  function Looking(s: State, left: set<PeerId>): State {
    s.(holder := WithLeft(s.holder, left))
  }

  lemma LooksPast(s: State, left: set<PeerId>, id: PeerId)
    requires !s.holder.Free? && Reachable(Looking(s, left))
    requires id in left && id in s.conns && s.conns[id].key != s.holder.key
    ensures Reachable(Looking(s, left - {id}))
  {
    hide Reachable;
    StepReachable(Looking(s, left), LookAt(id));
  }

  /** A lookup that finds nothing looks at every connection. */
  lemma {:induction false} LooksAtAll(s: State, left: set<PeerId>)
    requires !s.holder.Free? && Reachable(Looking(s, left))
    requires forall id :: id in left ==> id in s.conns && s.conns[id].key != s.holder.key
    ensures Reachable(Looking(s, {}))
    decreases |left|
  {
    hide Reachable, Looking;
    if left != {} {
      var id :| id in left;
      LooksPast(s, left, id);
      LooksAtAll(s, left - {id});
    }
  }

  lemma LooksAtAllLeft(s: State)
    requires Reachable(s) && !s.holder.Free?
    requires forall id :: id in s.holder.left ==> id in s.conns && s.conns[id].key != s.holder.key
    ensures Reachable(Looking(s, {}))
  {
    hide Reachable;
    assert Looking(s, s.holder.left) == s;
    LooksAtAll(s, s.holder.left);
  }

  lemma SentToReachable(s: State, key: Key, env: Envelope, id: PeerId)
    requires BetweenCalls(s) && s.intake.started && env.kind != ConfirmReply
    requires id in s.conns && s.conns[id].key == key
    ensures BetweenCalls(SentTo(s, key, env, id))
  {
    hide Reachable, HandOver;
    StepReachable(s, SendMessage(key, env));
    StepReachable(SubmitStep(s, key, env), LookAt(id));
    SentToFrame(s, key, env, id);
  }

  lemma StoredReachable(s: State, key: Key, env: Envelope)
    requires BetweenCalls(s) && s.intake.started && env.kind != ConfirmReply && !HasConn(s, key)
    ensures BetweenCalls(Stored(s, key, env))
  {
    hide Reachable, StoreStep;
    var t := Ticket(|s.submitted|, env);
    StepReachable(s, SendMessage(key, env));
    var first := SubmitStep(s, key, env);
    NoneHasKey(s, key);
    LooksAtAllLeft(first);
    var seen := Looking(first, {});
    StepReachable(seen, NoneFound);
    var second := Step(seen, NoneFound);
    LooksAtAllLeft(second);
    var done := Looking(second, {});
    StepReachable(done, NoneFound);
    StoreIgnoresHolder(first, done.holder, key, t);
    StoredFrame(s, key, env);
  }

  lemma NoneHasKey(s: State, key: Key)
    requires !HasConn(s, key)
    ensures forall id :: id in s.conns ==> s.conns[id].key != key
  {
  }

  lemma StoreIgnoresHolder(s: State, holder: Holder, key: Key, t: Ticket)
    ensures StoreStep(s.(holder := holder), key, t) == StoreStep(s, key, t).(holder := holder)
  {
    var m := s.(holder := holder);
    assert IsBanned(m, key) == IsBanned(s, key) && MessagesFor(m, key) == MessagesFor(s, key);
    hide IsBanned, MessagesFor;
  }

  lemma BanFoundReachable(s: State, key: Key, on: bool, id: PeerId)
    requires BetweenCalls(s) && s.intake.started && id in s.conns && s.conns[id].key == key
    ensures BetweenCalls(BanFound(s, key, on, id))
    ensures var s' := BanFound(s, key, on, id);
            s'.bannedPeer == s.bannedPeer[key := on] && s'.conns == s.conns[id := s.conns[id].(banned := on)]
  {
    hide Reachable;
    StepReachable(s, BanList(key, on));
    StepReachable(BanListStep(s, key, on), LookAt(id));
  }

  lemma BanNotFoundReachable(s: State, key: Key, on: bool)
    requires BetweenCalls(s) && s.intake.started && !HasConn(s, key)
    ensures BetweenCalls(BanNotFound(s, key, on))
    ensures BanNotFound(s, key, on).bannedPeer == s.bannedPeer[key := on] && BanNotFound(s, key, on).conns == s.conns
  {
    hide Reachable;
    StepReachable(s, BanList(key, on));
    var first := BanListStep(s, key, on);
    NoneHasKey(s, key);
    LooksAtAllLeft(first);
    StepReachable(Looking(first, {}), NoneFound);
  }

  /** Peer `id` has a connection without a key, under the number the counter stood at; the counter has moved on. */
  predicate NewlyNumbered(s: State, s': State, id: PeerId) {
    && id in s'.conns && s'.conns[id].uniqId == s.totalPeers && s'.conns[id].key == "" && !s'.conns[id].banned
    && s'.peerIds == s.peerIds[s.totalPeers := id]
    && s'.totalPeers == if s.totalPeers == 0xFFFF_FFFF then 0 else s.totalPeers + 1
  }

  lemma AddedNumber(s: State, id: PeerId)
    requires id !in s.conns
    ensures var s' := AddConn(s, id, s.totalPeers);
            NewlyNumbered(s, s', id) && s'.conns.Keys == s.conns.Keys + {id}
  {
  }

  lemma AddedIntake(s: State, id: PeerId)
    requires id !in s.conns
    ensures var s' := AddConn(s, id, s.totalPeers);
            s'.intake == s.intake && s'.holder == s.holder && s'.orphans == s.orphans
  {
  }

  lemma StreamedReachable(s: State, id: PeerId)
    requires BetweenCalls(s)
    ensures BetweenCalls(Streamed(s, id)) && Streamed(s, id).intake == s.intake
    ensures Streamed(s, id).conns.Keys == s.conns.Keys + {id}
    ensures id !in s.conns ==> NewlyNumbered(s, Streamed(s, id), id)
  {
    if id !in s.conns {
      AddedNumber(s, id);
    }
    hide Reachable, Leads, AddConn;
    if id !in s.conns {
      AddedIntake(s, id);
      var actions, m := Serve(s, id, OnConnect(id));
      LeadsReachable(s, actions, m);
    }
  }

  /** A bootstrap peer before `New` has returned, an entry of a peer list afterwards. */
  lemma ConnectedReachable(s: State, id: PeerId)
    requires BetweenCalls(s)
    ensures BetweenCalls(Connected(s, id)) && Connected(s, id).intake == s.intake
    ensures Connected(s, id).conns.Keys == s.conns.Keys + if id == s.self then {} else {id}
    ensures id != s.self && id !in s.conns ==> NewlyNumbered(s, Connected(s, id), id)
  {
    if id != s.self && id !in s.conns {
      AddedNumber(s, id);
    }
    hide Reachable, Leads, AddConn;
    if id != s.self && id !in s.conns {
      AddedIntake(s, id);
      var actions, m;
      if s.intake.started {
        actions, m := Serve(s, id, ListedPeer(id));
      } else {
        actions, m := ServeBootstrap(s, id);
      }
      LeadsReachable(s, actions, m);
    }
  }

  /** The counter has moved on by `k`; it is 32 bits wide. */
  predicate MovedOn(c: nat, c': nat, k: nat) {
    c' == (c + k) % 0x1_0000_0000
  }

  lemma OneFurther(c: nat, c': nat, c'': nat, k: nat)
    requires MovedOn(c, c', k) && MovedOn(c', c'', 1)
    ensures MovedOn(c, c'', k + 1)
  {
  }

  lemma LastConnected(s: State, ids: seq<PeerId>)
    ensures ids == [] ==> AllConnected(s, ids) == s
    ensures ids != [] ==> AllConnected(s, ids) == Connected(AllConnected(s, ids[..|ids| - 1]), ids[|ids| - 1])
  {
    hide Connected;
  }

  /** The peers of a list but this node, with its last entry apart. */
  lemma LastListed(ids: seq<PeerId>, self: PeerId)
    requires ids != []
    ensures var k := |ids| - 1;
            (set i | i in ids && i != self)
            == (set i | i in ids[..k] && i != self) + if ids[k] == self then {} else {ids[k]}
  {
    assert ids == ids[..|ids| - 1] + [ids[|ids| - 1]];
  }

  /** Registering a list connects every peer in it but this node. */
  lemma {:induction false} AllConnectedKeys(s: State, ids: seq<PeerId>)
    ensures AllConnected(s, ids).self == s.self
    ensures AllConnected(s, ids).conns.Keys == s.conns.Keys + (set i | i in ids && i != s.self)
    decreases |ids|
  {
    hide AllConnected, Connected;
    LastConnected(s, ids);
    if ids != [] {
      var k := |ids| - 1;
      AllConnectedKeys(s, ids[..k]);
      LastListed(ids, s.self);
      ConnectedCounts(AllConnected(s, ids[..k]), ids[k]);
    }
  }

  /** From `n` connections to `n'`, not fewer, and the counter as much further on from `c` to `c'`. */
  predicate Counts(n: nat, c: nat, n': nat, c': nat) {
    n' >= n && MovedOn(c, c', n' - n)
  }

  lemma CountsItself(n: nat, c: uint32)
    ensures Counts(n, c, n, c)
  {
  }

  lemma CountsFurther(n: nat, c: nat, n': nat, c': nat, c'': nat)
    requires Counts(n, c, n', c') && MovedOn(c', c'', 1)
    ensures Counts(n, c, n' + 1, c'')
  {
    hide MovedOn;
    OneFurther(c, c', c'', n' - n);
  }

  /** It moves the counter on by one for each peer that had no connection, however often it is listed. */
  lemma {:induction false} AllConnectedCounts(s: State, ids: seq<PeerId>)
    ensures Counts(|s.conns|, s.totalPeers, |AllConnected(s, ids).conns|, AllConnected(s, ids).totalPeers)
    decreases |ids|
  {
    hide AllConnected, Connected, Counts, MovedOn;
    LastConnected(s, ids);
    CountsItself(|s.conns|, s.totalPeers);
    if ids != [] {
      var m, id := AllConnected(s, ids[..|ids| - 1]), ids[|ids| - 1];
      AllConnectedCounts(s, ids[..|ids| - 1]);
      ConnectedCounts(m, id);
      if id != m.self && id !in m.conns {
        CountsFurther(|s.conns|, s.totalPeers, |m.conns|, m.totalPeers, Connected(m, id).totalPeers);
      }
    }
  }

  lemma ConnectedCounts(s: State, id: PeerId)
    ensures id == s.self || id in s.conns ==> Connected(s, id) == s
    ensures Connected(s, id).self == s.self
    ensures Connected(s, id).conns.Keys == s.conns.Keys + if id == s.self then {} else {id}
    ensures id != s.self && id !in s.conns ==>
              |Connected(s, id).conns| == |s.conns| + 1 && MovedOn(s.totalPeers, Connected(s, id).totalPeers, 1)
  {
    if id != s.self && id !in s.conns {
      OneKeyMore(s.conns, id, NewConn(s.totalPeers));
    }
  }

  lemma OneKeyMore(conns: map<PeerId, Conn>, id: PeerId, c: Conn)
    requires id !in conns
    ensures |conns[id := c]| == |conns| + 1 && conns[id := c].Keys == conns.Keys + {id}
  {
    assert |conns[id := c]| == |conns[id := c].Keys| && conns[id := c].Keys == conns.Keys + {id};
  }

  lemma SetKeyReachable(s: State, id: PeerId, key: Key)
    requires BetweenCalls(s) && id in s.conns && key != ""
    ensures var s' := SetKeyStep(s, Entered(id), key);
            BetweenCalls(s') && id in s'.conns && key in s'.conns[id].callbacks
            && s'.conns == s.conns[id := Keyed(s.conns[id], key)] && SameRest(s, s') && s'.messages == s.messages
  {
    hide Reachable;
    StepReachable(s, SetKey(Entered(id), key));
    SetKeyFrame(s, Entered(id), key);
  }

  lemma RecoveredReachable(s: State, id: PeerId, key: Key)
    requires BetweenCalls(s) && id in s.conns && key in s.conns[id].callbacks
    ensures BetweenCalls(RecoveredStep(s, Entered(id), key))
  {
    hide Reachable, RecoveredStep;
    StepReachable(s, Recovered(Entered(id), key));
    RecoveredFrame(s, Entered(id), key);
  }

  // ----- what becomes of the connections -----

  /** A connection after Send was called with all of `ts`, in order. */
  function GivenAll(c: Conn, ts: seq<Ticket>): Conn {
    if ts == [] then c else Given(GivenAll(c, ts[..|ts| - 1]), ts[|ts| - 1])
  }

  /** A connection after its callback for `key`: the messages first, then the ban. */
  function AfterMessages(c: Conn, key: Key, ts: seq<Ticket>, banned: bool): Conn {
    GivenAll(c, ts).(callbacks := c.callbacks - multiset{key}, banned := c.banned || banned)
  }

  lemma {:induction false} GivenAllIs(c: Conn, ts: seq<Ticket>)
    ensures GivenAll(c, ts) == c.(handed := c.handed + Accepted(c, ts))
    decreases |ts|
  {
    if ts != [] {
      var k := |ts| - 1;
      GivenAllIs(c, ts[..k]);
      SendableSnoc(ts[..k], ts[k]);
      assert ts == ts[..k] + [ts[k]];
    }
  }

  lemma {:induction false} SendableSnoc(ts: seq<Ticket>, t: Ticket)
    ensures Sendable(ts + [t]) == Sendable(ts) + if t.env.data == None then [] else [t]
    decreases |ts|
  {
    if ts != [] {
      SendableSnoc(ts[1..], t);
      assert (ts + [t])[1..] == ts[1..] + [t];
    } else {
      assert ([t])[1..] == [];
    }
  }

  lemma SentToConns(s: State, key: Key, env: Envelope, id: PeerId)
    requires id in s.conns
    ensures SentTo(s, key, env, id).conns == s.conns[id := Given(s.conns[id], Ticket(|s.submitted|, env))]
  {
  }

  lemma RecoveredConns(s: State, id: PeerId, key: Key)
    requires id in s.conns
    ensures RecoveredStep(s, Entered(id), key).conns
            == s.conns[id := AfterMessages(s.conns[id], key, MessagesFor(s, key), IsBanned(s, key))]
  {
    var p := Entered(id);
    RecoveredFrame(s, p, key);
    RecoveredGives(s, p, key);
    GivenAllIs(s.conns[id], MessagesFor(s, key));
    hide RecoveredStep, GivenAll, Accepted;
  }

  lemma SentToFrame(s: State, key: Key, env: Envelope, id: PeerId)
    requires id in s.conns
    ensures var s' := SentTo(s, key, env, id);
            && s'.self == s.self && s'.peerIds == s.peerIds && s'.bannedPeer == s.bannedPeer
            && s'.totalPeers == s.totalPeers && s'.holder.Free? && s'.messages == s.messages && s'.intake == s.intake
            && s'.orphans == s.orphans
  {
    hide HandOver;
    HandOverFrame(SubmitStep(s, key, env), Entered(id), Ticket(|s.submitted|, env));
  }

  lemma StoredFrame(s: State, key: Key, env: Envelope)
    ensures var s' := Stored(s, key, env);
            && s'.conns == s.conns && s'.self == s.self && s'.peerIds == s.peerIds && s'.bannedPeer == s.bannedPeer
            && s'.totalPeers == s.totalPeers && s'.holder.Free? && s'.intake == s.intake && s'.orphans == s.orphans
  {
    hide StoreStep;
    StoreFrame(SubmitStep(s, key, env), key, Ticket(|s.submitted|, env));
  }

  lemma StoredMessages(s: State, key: Key, env: Envelope)
    ensures var s' := Stored(s, key, env);
            && (forall k :: k != key ==> MessagesFor(s', k) == MessagesFor(s, k))
            && MessagesFor(s', key)
               == MessagesFor(s, key) + if IsBanned(s, key) then [] else [Ticket(|s.submitted|, env)]
  {
  }

  lemma BanFrame(s: State, key: Key, on: bool, id: PeerId)
    requires id in s.conns
    ensures BanFound(s, key, on, id).conns == s.conns[id := s.conns[id].(banned := on)]
    ensures BanNotFound(s, key, on).conns == s.conns
    ensures BanFound(s, key, on, id).intake == s.intake && BanNotFound(s, key, on).intake == s.intake
  {
  }

  /**
   A ban that finds no connection is remembered: whichever connection turns out to have the key is
   banned by its callback. After an unban the callback bans nobody.
   */
  lemma BanRemembered(s: State, key: Key, on: bool, id: PeerId)
    requires id in s.conns
    ensures var s' := BanNotFound(s, key, on);
            && id in s'.conns && id in KeyRecovered(s', id, key).conns
            && KeyRecovered(s', id, key).conns[id].banned == (s.conns[id].banned || on)
  {
    hide RecoveredStep, SetKeyStep, BanListStep;
    ListAfterBan(s, key, on);
    var s' := BanNotFound(s, key, on);
    SetKeyFrame(s', Entered(id), key);
    var keyed := SetKeyStep(s', Entered(id), key);
    RecoveredFrame(keyed, Entered(id), key);
  }

  lemma ListAfterBan(s: State, key: Key, on: bool)
    ensures var s' := BanNotFound(s, key, on);
            s'.conns == s.conns && s'.bannedPeer == s.bannedPeer[key := on] && IsBanned(s', key) == on
  {
  }
}

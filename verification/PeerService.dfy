/**
 The service object of peer_service/peer_service.go: its maps, its connections, and its
 calls, each under the lock from beginning to end. `model` is the registry state the fields
 stand for; it is always a reachable one in which nothing was overtaken, and what the registry
 says was handed to a connection is what the connection's queue was given from outside.
 */
module PeerService {
  import opened Bytes
  import opened Envelopes
  import opened FrameCodec
  import opened NodeLaws
  import CycleTheorems
  import opened Registry
  import opened RegistryLaws
  import opened PostponedMessages
  import opened RegistryTheorems
  import opened PeerCalls
  import MessageLedger
  import C = Connection
  import SpamWindow
  import Status

  /** The objects of a set of connections. */
  ghost function Footprint(connections: map<PeerId, C.Connection>): set<object> {
    (set id | id in connections :: connections[id])
    + (set id | id in connections :: connections[id].messageQueue)
    + (set id | id in connections :: connections[id].receivedMsgId)
  }

  ghost function Queues(connections: map<PeerId, C.Connection>): set<object> {
    set id | id in connections :: connections[id].messageQueue
  }

  /** No two connections share anything. */
  ghost predicate Apart(connections: map<PeerId, C.Connection>) {
    forall i, j :: i in connections && j in connections && i != j ==>
      && connections[i] != connections[j]
      && connections[i].messageQueue != connections[j].messageQueue
      && connections[i].receivedMsgId != connections[j].receivedMsgId
  }

  /** What `conn` records as handed over is what was put on the connection from outside. */
  ghost predicate WasHanded(n: C.N.Node, conn: Conn) {
    FromOutside(n.put) == C.EnvelopesOf(conn.handed) && n.banned == conn.banned
  }

  /** The connection object is the one the registry state describes. */
  ghost predicate ConnMatches(c: C.Connection, conn: Conn)
    reads c, c.messageQueue, c.receivedMsgId
  {
    c.Valid() && c.PeerPublicKey == conn.key && c.UniqId == conn.uniqId && WasHanded(c.model, conn)
  }

  ghost predicate ConnsMatch(connections: map<PeerId, C.Connection>, conns: map<PeerId, Conn>)
    reads Footprint(connections)
  {
    && connections.Keys == conns.Keys
    && forall id :: id in connections ==> ConnMatches(connections[id], conns[id])
  }

  class PeerService {
    const self: PeerId
    var connections: map<PeerId, C.Connection>
    var messages: map<Key, seq<Envelope>>
    var peerIds: map<uint32, PeerId>
    var bannedPeer: map<Key, bool>
    var totalPeers: uint32
    ghost var model: State

    /** The fields of the service itself stand for `model`. */
    ghost predicate MapsMatch()
      reads this`messages, this`peerIds, this`bannedPeer, this`totalPeers, this`model
    {
      && self == model.self
      && (forall key :: Waiting(key) == C.EnvelopesOf(MessagesFor(model, key)))
      && peerIds == model.peerIds && bannedPeer == model.bannedPeer && totalPeers == model.totalPeers
      && BetweenCalls(model)
    }

    /** The messages that wait for the connection with `key`. */
    function Waiting(key: Key): seq<Envelope>
      reads this`messages
    {
      if key in messages then messages[key] else []
    }

    /** All fields stand for `model`; `New` may still be at work. */
    ghost predicate Consistent()
      reads this, Footprint(connections)
    {
      MapsMatch() && Apart(connections) && ConnsMatch(connections, model.conns)
    }

    ghost predicate Valid()
      reads this, Footprint(connections)
    {
      Consistent() && model.intake.started
    }

    /** `New`: the bootstrap peers are connected before any other thread comes in. */
    constructor (self: PeerId, bootstrap: seq<PeerId>)
      ensures Valid() && forall i :: i in connections ==> fresh(connections[i])
      ensures model == WithStarted(AllConnected(Start(self), bootstrap))
      ensures messages == map[]
      ensures bannedPeer == map[]
      ensures connections.Keys == set i | i in bootstrap && i != self
      ensures MovedOn(0, totalPeers, |connections|)
      ensures |connections| <= 0x1_0000_0000 ==> AllFound(connections, peerIds)
    {
      this.self := self;
      connections := map[];
      messages := map[];
      peerIds := map[];
      bannedPeer := map[];
      totalPeers := 0;
      model := Start(self);
      new;
      hide BetweenCalls, AllConnected, Consistent, Start, WithStarted, AllFound, MovedOn;
      NothingYet(this);
      ConnectBootstrap(bootstrap);
    }

    method ConnectBootstrap(ids: seq<PeerId>)
      requires Consistent() && !model.intake.started && connections == map[] && totalPeers == 0
      modifies this`connections, this`peerIds, this`totalPeers, this`model
      ensures Valid() && forall i :: i in connections ==> fresh(connections[i])
      ensures model == WithStarted(AllConnected(old(model), ids))
      ensures messages == old(messages) && bannedPeer == old(bannedPeer)
      ensures connections.Keys == set i | i in ids && i != self
      ensures MovedOn(0, totalPeers, |connections|)
      ensures |connections| <= 0x1_0000_0000 ==> AllFound(connections, peerIds)
    {
      hide BetweenCalls, Consistent, AllConnected, WithStarted, FoundUnder, MovedOn;
      ghost var before := connections;
      ConnectAll(ids);
      CountedFromNone(before, connections, totalPeers);
      NoteStarted();
    }

    /** `New` returns. */
    ghost method NoteStarted()
      requires Consistent() && !model.intake.started
      modifies this`model
      ensures connections == old(connections) && peerIds == old(peerIds) && totalPeers == old(totalPeers)
      ensures messages == old(messages) && bannedPeer == old(bannedPeer)
      ensures Valid() && model == WithStarted(old(model))
    {
      hide BetweenCalls, ConnsMatch, Apart;
      assert this !in Footprint(connections);
      HasStarted(model);
      model := Step(model, Action.Started);
    }

    method ConnectAll(ids: seq<PeerId>)
      requires Consistent()
      modifies this`connections, this`peerIds, this`totalPeers, this`model
      ensures Consistent() && model == AllConnected(old(model), ids) && model.intake == old(model.intake)
      ensures messages == old(messages) && bannedPeer == old(bannedPeer)
      ensures connections.Keys == old(connections).Keys + (set i | i in ids && i != self)
      ensures |connections| >= |old(connections)|
      ensures MovedOn(old(totalPeers), totalPeers, |connections| - |old(connections)|)
      ensures forall i :: i in old(connections) ==> i in connections && connections[i] == old(connections)[i]
      ensures forall i :: i in connections && i !in old(connections) ==> fresh(connections[i])
      ensures |connections| <= 0x1_0000_0000 ==>
                forall i :: i in connections && i !in old(connections) ==>
                  FoundUnder(peerIds, i, connections[i].UniqId) && connections[i].UniqId !in old(peerIds)
    {
      hide BetweenCalls, Consistent, AllConnected, NumbersAgree, FoundUnder, MovedOn;
      ghost var before := connections;
      NumbersMatch(this);
      RegisterAll(ids);
      NumbersMatch(this);
      if |connections| <= 0x1_0000_0000 {
        NewNumbers(before, connections, old(model), model);
      }
    }

    method RegisterAll(ids: seq<PeerId>)
      requires Consistent()
      modifies this`connections, this`peerIds, this`totalPeers, this`model
      ensures Consistent() && model == AllConnected(old(model), ids) && model.intake == old(model.intake)
      ensures connections.Keys == old(connections).Keys + (set i | i in ids && i != self)
      ensures |connections| >= |old(connections)|
      ensures MovedOn(old(totalPeers), totalPeers, |connections| - |old(connections)|)
      ensures forall i :: i in old(connections) ==> i in connections && connections[i] == old(connections)[i]
      ensures forall i :: i in connections && i !in old(connections) ==> fresh(connections[i])
    {
      hide BetweenCalls, ConnsMatch, Apart, MapsMatch, Connected, AllConnected, Counts, MovedOn;
      MapsAreBetweenCalls(this);
      ghost var before := connections;
      MatchedKeys(connections, model.conns);
      AllConnectedKeys(model, ids);
      AllConnectedCounts(model, ids);
      ConnectEach(ids);
      MatchedKeys(connections, model.conns);
      MapsAreBetweenCalls(this);
      CounterMoved(before, connections, old(model), model);
    }

    method ConnectEach(ids: seq<PeerId>)
      requires Consistent()
      modifies this`connections, this`peerIds, this`totalPeers, this`model
      ensures Consistent() && model == AllConnected(old(model), ids) && model.intake == old(model.intake)
      ensures forall i :: i in old(connections) ==> i in connections && connections[i] == old(connections)[i]
      ensures forall i :: i in connections && i !in old(connections) ==> fresh(connections[i])
    {
      hide BetweenCalls, ConnsMatch, Apart, MapsMatch, Connected;
      for n := 0 to |ids|
        invariant Consistent() && model == AllConnected(old(model), ids[..n]) && model.intake == old(model.intake)
        invariant forall i :: i in old(connections) ==> i in connections && connections[i] == old(connections)[i]
        invariant forall i :: i in connections && i !in old(connections) ==> fresh(connections[i])
      {
        assert ids[..n + 1][..n] == ids[..n];
        Connect(ids[n]);
      }
      assert ids[..|ids|] == ids;
    }

    // ----- lookups -----

    /** Some connection with this key, if there is one; which one is up to the map's order. */
    method ConnectionByPublicKey(publicKey: Key) returns (r: Option<PeerId>)
      requires Valid()
      ensures Valid()
      ensures r.Some? ==> r.value in connections && connections[r.value].PeerPublicKey == publicKey
      ensures r.None? ==> forall i :: i in connections ==> connections[i].PeerPublicKey != publicKey
      ensures r.Some? ==> r.value in model.conns && model.conns[r.value].key == publicKey
      ensures r.None? ==> !HasConn(model, publicKey)
    {
      hide BetweenCalls, WasHanded;
      var left := connections.Keys;
      while left != {}
        invariant left <= connections.Keys
        invariant forall id :: id in connections && id !in left ==>
                    model.conns[id].key != publicKey && connections[id].PeerPublicKey != publicKey
        decreases left
      {
        var id :| id in left;
        assert ConnMatches(connections[id], model.conns[id]);
        if connections[id].PeerPublicKey == publicKey {
          return Some(id);
        }
        left := left - {id};
      }
      r := None;
    }

    // ----- sending -----

    /** Gives message `t` to the connection `c` with `id`. */
    method SendTo(id: PeerId, c: C.Connection, msg: Envelope, ghost conns: map<PeerId, Conn>, ghost t: Ticket)
      requires id in connections && c == connections[id] && id in conns
      requires t.env == msg && msg.kind != ConfirmReply
      requires Apart(connections) && ConnsMatch(connections, conns)
      modifies c.messageQueue, c`model
      ensures ConnsMatch(connections, conns[id := Given(conns[id], t)])
      ensures c.model == C.N.SendStep(old(c.model), msg)
      ensures c.messageQueue.queue
              == old(c.messageQueue.queue) + if msg.data == None || c.isBanned then [] else [msg]
    {
      hide C.Connection.Valid, WasHanded, ConnsMatch, Apart;
      SplitOff(connections, conns, id);
      SendIsHanded(c.model, conns[id], t);
      c.Send(msg);
      JoinBack(connections, conns, id, Given(conns[id], t));
    }

    /**
     Sends to a connection with the key if there is one, and otherwise postpones the message,
     unless the key is banned.
     */
    method SendMessageToPeer(publicKey: Key, msg: Envelope) returns (ok: bool, ghost found: PeerId)
      requires Valid() && msg.kind != ConfirmReply
      modifies this`messages, this`model, Queues(connections), connections.Values`model
      ensures Valid() && connections == old(connections)
      ensures ok ==>
                && found in connections && connections[found].PeerPublicKey == publicKey
                && messages == old(messages) && connections[found].messageQueue.queue
                   == old(connections[found].messageQueue.queue)
                      + if msg.data == None || connections[found].isBanned then [] else [msg]
      ensures !ok ==>
                && (forall i :: i in connections ==> connections[i].PeerPublicKey != publicKey)
                && messages == if publicKey in bannedPeer && bannedPeer[publicKey] then old(messages)
                               else old(messages)[publicKey := old(Waiting(publicKey)) + [msg]]
      ensures ok <==> HasConn(old(model), publicKey)
      ensures ok ==>
                && found in old(model).conns && old(model).conns[found].key == publicKey
                && model == SentTo(old(model), publicKey, msg, found)
                && connections[found].model == C.N.SendStep(old(connections[found].model), msg)
      ensures forall i :: i in connections && !(ok && i == found) ==>
                unchanged(connections[i]) && unchanged(connections[i].messageQueue)
      ensures !ok ==> model == Stored(old(model), publicKey, msg)
    {
      hide BetweenCalls, Consistent, SentTo, Stored;
      found := "";
      var r := ConnectionByPublicKey(publicKey);
      if r.Some? {
        found := r.value;
        StandsApart(this, r.value);
        SendFound(publicKey, msg, r.value, connections[r.value]);
        return true, found;
      }
      ghost var again := StoreMessage(publicKey, msg);
      return false, found;
    }

    /** storeMessage looks for a connection once more. */
    method StoreMessage(key: Key, msg: Envelope) returns (ghost found: Option<PeerId>)
      requires Valid() && msg.kind != ConfirmReply
      modifies this`messages, this`model, Queues(connections), connections.Values`model
      ensures Valid() && connections == old(connections)
      ensures found.Some? ==>
                && found.value in connections && connections[found.value].PeerPublicKey == key
                && messages == old(messages) && connections[found.value].messageQueue.queue
                   == old(connections[found.value].messageQueue.queue)
                      + if msg.data == None || connections[found.value].isBanned then [] else [msg]
      ensures found.None? ==>
                && (forall i :: i in connections ==> connections[i].PeerPublicKey != key)
                && messages == if key in bannedPeer && bannedPeer[key] then old(messages)
                               else old(messages)[key := old(Waiting(key)) + [msg]]
      ensures found.Some? <==> HasConn(old(model), key)
      ensures found.Some? ==>
                && found.value in old(model).conns && old(model).conns[found.value].key == key
                && model == SentTo(old(model), key, msg, found.value)
                && connections[found.value].model == C.N.SendStep(old(connections[found.value].model), msg)
      ensures forall i :: i in connections && found != Some(i) ==>
                unchanged(connections[i]) && unchanged(connections[i].messageQueue)
      ensures found.None? ==> model == Stored(old(model), key, msg)
    {
      hide BetweenCalls, Consistent, SentTo, Stored;
      var r := ConnectionByPublicKey(key);
      found := r;
      if r.Some? {
        StandsApart(this, r.value);
        SendFound(key, msg, r.value, connections[r.value]);
      } else {
        StoreFor(key, msg);
      }
    }

    /** No connection has the key. */
    method StoreFor(key: Key, msg: Envelope)
      requires Valid() && msg.kind != ConfirmReply && !HasConn(model, key)
      modifies this`messages, this`model
      ensures Valid() && model == Stored(old(model), key, msg)
      ensures messages == if key in bannedPeer && bannedPeer[key] then old(messages)
                          else old(messages)[key := old(Waiting(key)) + [msg]]
    {
      hide BetweenCalls, ConnsMatch, Apart, Stored, MapsMatch;
      assert this !in Footprint(connections);
      StoredFrame(model, key, msg);
      Postpone(key, msg);
    }

    /** The lookup has found the connection with `id`. */
    method SendFound(key: Key, msg: Envelope, id: PeerId, c: C.Connection)
      requires Valid() && id in connections && c == connections[id]
      requires msg.kind != ConfirmReply && id in model.conns && model.conns[id].key == key
      modifies this`model, c.messageQueue, c`model
      ensures Valid() && connections == old(connections) && id in connections
      ensures model == SentTo(old(model), key, msg, id)
      ensures c.messageQueue.queue
              == old(c.messageQueue.queue) + if msg.data == None || c.isBanned then [] else [msg]
      ensures connections[id].model == C.N.SendStep(old(connections[id].model), msg)
    {
      hide BetweenCalls, ConnsMatch, Apart, SentTo, MapsMatch, Given;
      assert this !in Footprint(connections);
      MatchedKeys(connections, model.conns);
      SentToConns(model, key, msg, id);
      SendTo(id, c, msg, model.conns, Ticket(|model.submitted|, msg));
      NoteSent(key, msg, id);
    }

    /** The registry's record of a message that connection `id` was given. */
    ghost method NoteSent(key: Key, msg: Envelope, id: PeerId)
      requires MapsMatch() && model.intake.started && msg.kind != ConfirmReply
      requires id in model.conns && model.conns[id].key == key
      modifies this`model
      ensures MapsMatch() && model.intake.started && model == SentTo(old(model), key, msg, id)
    {
      hide BetweenCalls, SentTo;
      SentToReachable(model, key, msg, id);
      SentToFrame(model, key, msg, id);
      var before := model;
      model := SentTo(model, key, msg, id);
      assert forall k :: MessagesFor(model, k) == MessagesFor(before, k);
    }

    method Postpone(key: Key, msg: Envelope)
      requires MapsMatch() && model.intake.started && msg.kind != ConfirmReply && !HasConn(model, key)
      modifies this`messages, this`model
      ensures MapsMatch() && model.intake.started && model == Stored(old(model), key, msg)
      ensures messages == if key in bannedPeer && bannedPeer[key] then old(messages)
                          else old(messages)[key := old(Waiting(key)) + [msg]]
    {
      hide BetweenCalls, HasConn, Stored;
      StoredReachable(model, key, msg);
      StoredFrame(model, key, msg);
      StoredMessages(model, key, msg);
      var banned := OnBanList(key);
      if !banned {
        var before := PostponedFor(key);
        messages := messages[key := before + [msg]];
      }
      model := Stored(model, key, msg);
    }

    // ----- the recovery callback -----

    /** Gives all of `msgs`, in order, to the connection `c` with `id`. */
    method SendAllTo(id: PeerId, c: C.Connection, msgs: seq<Envelope>,
                     ghost conns: map<PeerId, Conn>, ghost ts: seq<Ticket>)
      requires id in connections && c == connections[id] && id in conns
      requires msgs == C.EnvelopesOf(ts) && forall t :: t in ts ==> t.env.kind != ConfirmReply
      requires Apart(connections) && ConnsMatch(connections, conns)
      modifies c.messageQueue, c`model
      ensures ConnsMatch(connections, conns[id := GivenAll(conns[id], ts)])
      ensures c.model == SendAll(old(c.model), msgs)
      ensures c.messageQueue.queue == old(c.messageQueue.queue) + if c.isBanned then [] else WithData(msgs)
    {
      hide ConnsMatch, Apart, C.N.SendStep, Given, GivenAll, SendAll, C.EnvelopesOf, WithData;
      NoData(msgs);
      NoneGiven(conns, id, ts);
      NoneSent(c.model, msgs);
      assert msgs[..|msgs|] == msgs && ts[..|ts|] == ts;
      for i := 0 to |msgs|
        invariant ConnsMatch(connections, WithGiven(conns, id, ts[..i]))
        invariant c.model == SendAll(old(c.model), msgs[..i])
        invariant c.messageQueue.queue == old(c.messageQueue.queue) + if c.isBanned then [] else WithData(msgs[..i])
      {
        OneMoreWithData(msgs, i);
        SendNth(id, c, msgs, conns, ts, i);
        OneMoreSent(old(c.model), msgs, i);
      }
    }

    /** Gives the next of `msgs` to the connection `c` with `id`. */
    method SendNth(id: PeerId, c: C.Connection, msgs: seq<Envelope>,
                   ghost conns: map<PeerId, Conn>, ghost ts: seq<Ticket>, i: nat)
      requires id in connections && c == connections[id] && id in conns && i < |msgs|
      requires msgs == C.EnvelopesOf(ts) && forall t :: t in ts ==> t.env.kind != ConfirmReply
      requires Apart(connections) && ConnsMatch(connections, WithGiven(conns, id, ts[..i]))
      modifies c.messageQueue, c`model
      ensures ConnsMatch(connections, WithGiven(conns, id, ts[..i + 1]))
      ensures c.model == C.N.SendStep(old(c.model), msgs[i])
      ensures c.messageQueue.queue
              == old(c.messageQueue.queue) + if msgs[i].data == None || c.isBanned then [] else [msgs[i]]
    {
      hide ConnsMatch, Apart, C.N.SendStep, Given, GivenAll;
      assert ts[i] in ts;
      SendTo(id, c, msgs[i], WithGiven(conns, id, ts[..i]), ts[i]);
      OneMoreGiven(conns, id, ts, i);
    }

    /** Bans or unbans the connection `c` with `id`; the registry's record follows. */
    method SetConnectionBan(id: PeerId, c: C.Connection, on: bool, ghost conns: map<PeerId, Conn>)
      requires id in connections && c == connections[id] && id in conns
      requires Apart(connections) && ConnsMatch(connections, conns)
      modifies c`isBanned, c`model
      ensures ConnsMatch(connections, conns[id := conns[id].(banned := on)]) && c.isBanned == on
      ensures c.model == AfterBan(old(c.model), on)
    {
      hide C.Connection.Valid, WasHanded, ConnsMatch, Apart;
      SplitOff(connections, conns, id);
      BanIsHanded(c.model, conns[id], on);
      if on {
        c.BanPeer();
      } else {
        c.RemoveFromBanList();
      }
      JoinBack(connections, conns, id, conns[id].(banned := on));
    }

    method PostponedFor(key: Key) returns (msgs: seq<Envelope>)
      requires MapsMatch()
      ensures msgs == Waiting(key)
      ensures msgs == C.EnvelopesOf(MessagesFor(model, key))
    {
      hide BetweenCalls;
      msgs := Waiting(key);
    }

    method OnBanList(key: Key) returns (banned: bool)
      requires MapsMatch()
      ensures banned == (key in bannedPeer && bannedPeer[key])
      ensures banned == IsBanned(model, key)
    {
      hide BetweenCalls;
      banned := key in bannedPeer && bannedPeer[key];
    }

    /** Postponed messages first, then the ban. */
    method DeliverAndBan(id: PeerId, c: C.Connection, msgs: seq<Envelope>, banned: bool,
                         ghost key: Key, ghost ts: seq<Ticket>)
      requires id in connections && c == connections[id] && id in model.conns
      requires msgs == C.EnvelopesOf(ts) && forall t :: t in ts ==> t.env.kind != ConfirmReply
      requires Apart(connections) && ConnsMatch(connections, model.conns)
      modifies c.messageQueue, c`model, c`isBanned
      ensures ConnsMatch(connections, model.conns[id := AfterMessages(model.conns[id], key, ts, banned)])
      ensures c.model == AfterCallback(old(c.model), msgs, banned)
      ensures c.isBanned == (old(c.isBanned) || banned)
      ensures c.messageQueue.queue == old(c.messageQueue.queue) + if old(c.isBanned) then [] else WithData(msgs)
    {
      hide ConnsMatch, Apart, SendAll, AfterBan, GivenAll;
      assert this !in Footprint(connections);
      SendAllTo(id, c, msgs, model.conns, ts);
      GivenAllIs(model.conns[id], ts);
      ghost var given := model.conns[id := GivenAll(model.conns[id], ts)];
      ghost var after := model.conns[id := AfterMessages(model.conns[id], key, ts, banned)];
      if banned {
        SetConnectionBan(id, c, true, given);
        SameConnsMatch(connections, given[id := given[id].(banned := true)], after);
      } else {
        SameConnsMatch(connections, given, after);
      }
    }

    /** The callback of connection `id` for its key. */
    method OnPublicKeyRecovered(id: PeerId, c: C.Connection, publicKey: Key)
      requires Valid() && id in connections && c == connections[id]
      requires id in model.conns && publicKey in model.conns[id].callbacks
      modifies this`messages, this`model
      modifies c.messageQueue, c`model, c`isBanned
      ensures Valid() && connections == old(connections)
      ensures model == RecoveredStep(old(model), Entered(id), publicKey)
      ensures id in connections
      ensures connections[id].model == AfterRecovery(old(connections[id].model), old(model), publicKey)
      ensures messages == old(messages)[publicKey := []]
      ensures c.isBanned == (old(c.isBanned) || (publicKey in bannedPeer && bannedPeer[publicKey]))
      ensures c.messageQueue.queue
              == old(c.messageQueue.queue) + if old(c.isBanned) then [] else WithData(old(Waiting(publicKey)))
    {
      hide BetweenCalls, ConnsMatch, Apart, AfterCallback, RecoveredStep, MapsMatch, AfterMessages;
      assert this !in Footprint(connections);
      var msgs := PostponedFor(publicKey);
      var banned := OnBanList(publicKey);
      RecoveredConns(model, id, publicKey);
      MapsAreBetweenCalls(this);
      NoneIsReply(model, publicKey);
      DeliverAndBan(id, c, msgs, banned, publicKey, MessagesFor(model, publicKey));
      ForgetPostponed(id, publicKey);
    }

    /** The list for the key is emptied, and the registry's record follows. */
    method ForgetPostponed(id: PeerId, publicKey: Key)
      requires MapsMatch() && model.intake.started
      requires id in model.conns && publicKey in model.conns[id].callbacks
      modifies this`messages, this`model
      ensures MapsMatch() && model.intake.started && model == RecoveredStep(old(model), Entered(id), publicKey)
      ensures messages == old(messages)[publicKey := []]
    {
      hide Reachable, RecoveredStep;
      RecoveredReachable(model, id, publicKey);
      RecoveredFrame(model, Entered(id), publicKey);
      hide BetweenCalls;
      messages := messages[publicKey := []];
      model := RecoveredStep(model, Entered(id), publicKey);
    }

    // ----- the ban list -----

    method BanPeer(publicKey: Key) returns (ok: bool, ghost found: PeerId)
      requires Valid()
      modifies this`bannedPeer, this`model, connections.Values`isBanned, connections.Values`model
      ensures Valid() && connections == old(connections)
      ensures bannedPeer == old(bannedPeer)[publicKey := true]
      ensures ok ==> found in connections && old(connections[found].PeerPublicKey) == publicKey
                     && connections[found].isBanned
      ensures !ok ==> forall i :: i in connections ==> connections[i].PeerPublicKey != publicKey
      ensures ok <==> HasConn(old(model), publicKey)
      ensures ok ==> found in old(model).conns && old(model).conns[found].key == publicKey
                     && model == BanFound(old(model), publicKey, true, found)
                     && connections[found].model == AfterBan(old(connections[found].model), true)
      ensures forall i :: i in connections && !(ok && i == found) ==> unchanged(connections[i])
      ensures !ok ==> model == BanNotFound(old(model), publicKey, true)
    {
      ok, found := SetBanList(publicKey, true);
    }

    method RemoveFromBanList(publicKey: Key) returns (ok: bool, ghost found: PeerId)
      requires Valid()
      modifies this`bannedPeer, this`model, connections.Values`isBanned, connections.Values`model
      ensures Valid() && connections == old(connections)
      ensures bannedPeer == old(bannedPeer)[publicKey := false]
      ensures ok ==> found in connections && old(connections[found].PeerPublicKey) == publicKey
                     && !connections[found].isBanned
      ensures !ok ==> forall i :: i in connections ==> connections[i].PeerPublicKey != publicKey
      ensures ok <==> HasConn(old(model), publicKey)
      ensures ok ==> found in old(model).conns && old(model).conns[found].key == publicKey
                     && model == BanFound(old(model), publicKey, false, found)
                     && connections[found].model == AfterBan(old(connections[found].model), false)
      ensures forall i :: i in connections && !(ok && i == found) ==> unchanged(connections[i])
      ensures !ok ==> model == BanNotFound(old(model), publicKey, false)
    {
      ok, found := SetBanList(publicKey, false);
    }

    /** The list first, then the connection with the key. */
    method SetBanList(publicKey: Key, on: bool) returns (ok: bool, ghost found: PeerId)
      requires Valid()
      modifies this`bannedPeer, this`model, connections.Values`isBanned, connections.Values`model
      ensures Valid() && connections == old(connections)
      ensures bannedPeer == old(bannedPeer)[publicKey := on]
      ensures ok ==> found in connections && old(connections[found].PeerPublicKey) == publicKey
                     && connections[found].isBanned == on
      ensures !ok ==> forall i :: i in connections ==> connections[i].PeerPublicKey != publicKey
      ensures ok <==> HasConn(old(model), publicKey)
      ensures ok ==> found in old(model).conns && old(model).conns[found].key == publicKey
                     && model == BanFound(old(model), publicKey, on, found)
                     && connections[found].model == AfterBan(old(connections[found].model), on)
      ensures forall i :: i in connections && !(ok && i == found) ==> unchanged(connections[i])
      ensures !ok ==> model == BanNotFound(old(model), publicKey, on)
    {
      hide BetweenCalls, ConnsMatch, Apart, MapsMatch, BanFound, BanNotFound, AfterBan;
      assert this !in Footprint(connections);
      found := "";
      MatchedKeys(connections, model.conns);
      var r := ConnectionByPublicKey(publicKey);
      ok := r.Some?;
      if r.Some? {
        found := r.value;
        BanFrame(model, publicKey, on, found);
        AllApartFrom(connections, found);
        SetConnectionBan(r.value, connections[r.value], on, model.conns);
      } else {
        BanNotFoundFrame(model, publicKey, on);
      }
      NoteBan(publicKey, on, r);
    }

    method NoteBan(publicKey: Key, on: bool, found: Option<PeerId>)
      requires MapsMatch() && model.intake.started
      requires found.Some? ==> found.value in model.conns && model.conns[found.value].key == publicKey
      requires found.None? ==> !HasConn(model, publicKey)
      modifies this`bannedPeer, this`model
      ensures MapsMatch() && model.intake.started && bannedPeer == old(bannedPeer)[publicKey := on]
      ensures found.Some? ==> model == BanFound(old(model), publicKey, on, found.value)
      ensures found.None? ==> model == BanNotFound(old(model), publicKey, on)
    {
      hide BetweenCalls, HasConn;
      ghost var before := model;
      bannedPeer := bannedPeer[publicKey := on];
      if found.Some? {
        BanFoundReachable(model, publicKey, on, found.value);
        model := BanFound(model, publicKey, on, found.value);
      } else {
        BanNotFoundReachable(model, publicKey, on);
        model := BanNotFound(model, publicKey, on);
      }
      assert forall k :: MessagesFor(model, k) == MessagesFor(before, k);
    }

    // ----- new connections -----

    method GetNextPeerId() returns (uniqId: uint32)
      modifies this`totalPeers
      ensures uniqId == old(totalPeers) && totalPeers == (uniqId + 1) % TWO_32
    {
      uniqId := totalPeers;
      totalPeers := (totalPeers + 1) % TWO_32;
    }

    /** A connection to a peer that had none, under the next number; `after` is the registry's state with it. */
    method AddConnection(id: PeerId, ghost after: State) returns (conn: C.Connection)
      requires Consistent() && id !in connections
      requires id !in model.conns ==> after == AddConn(model, id, model.totalPeers)
      requires BetweenCalls(after) && after.intake == model.intake
      modifies this`connections, this`peerIds, this`totalPeers, this`model
      ensures Consistent() && model == after && model.intake == old(model.intake)
      ensures fresh(conn) && connections == old(connections)[id := conn]
      ensures conn.status == Status.NotConnected && conn.UniqId == old(totalPeers)
      ensures peerIds == old(peerIds)[old(totalPeers) := id]
      ensures totalPeers == (old(totalPeers) + 1) % 0x1_0000_0000
      ensures conn.model == C.N.Initial(SpamWindow.SPAM_STORE_THRESHOLD, old(totalPeers))
    {
      hide BetweenCalls, ConnsMatch, Apart, MapsMatch, AddConn, C.Connection.Valid, C.N.Initial;
      assert this !in Footprint(connections);
      MatchedKeys(connections, model.conns);
      var uniqId := NoteConnection(id, after);
      conn := EnterConnection(id, uniqId, old(model).conns);
    }

    /** The new connection is entered. */
    method EnterConnection(id: PeerId, uniqId: uint32, ghost conns: map<PeerId, Conn>) returns (conn: C.Connection)
      requires id !in connections && Apart(connections) && ConnsMatch(connections, conns)
      modifies this`connections
      ensures fresh(conn) && connections == old(connections)[id := conn]
      ensures Apart(connections) && ConnsMatch(connections, conns[id := NewConn(uniqId)])
      ensures conn.status == Status.NotConnected && conn.UniqId == uniqId
      ensures conn.model == C.N.Initial(SpamWindow.SPAM_STORE_THRESHOLD, uniqId)
    {
      hide ConnsMatch, Apart, C.Connection.Valid, JustMade, C.N.Initial;
      ghost var before := connections;
      conn := new C.Connection(SpamWindow.SPAM_STORE_THRESHOLD, uniqId);
      StandsNew(conn);
      connections := connections[id := conn];
      ApartWith(before, id, conn);
      MatchWith(before, conns, id, conn);
    }

    /** The number is given out and recorded. */
    method NoteConnection(id: PeerId, ghost after: State) returns (uniqId: uint32)
      requires MapsMatch() && id !in model.conns && BetweenCalls(after)
      requires after == AddConn(model, id, model.totalPeers)
      modifies this`peerIds, this`totalPeers, this`model
      ensures MapsMatch() && model == after && uniqId == old(totalPeers)
      ensures peerIds == old(peerIds)[uniqId := id] && totalPeers == (uniqId + 1) % 0x1_0000_0000
      ensures after.conns == old(model).conns[id := NewConn(uniqId)]
    {
      hide BetweenCalls;
      uniqId := GetNextPeerId();
      peerIds := peerIds[uniqId := id];
      ghost var before := model;
      model := after;
      assert forall k :: MessagesFor(model, k) == MessagesFor(before, k);
    }

    /** A bootstrap peer, or an entry of a peer list. */
    method Connect(id: PeerId)
      requires Consistent()
      modifies this`connections, this`peerIds, this`totalPeers, this`model
      ensures Consistent() && model == Connected(old(model), id) && model.intake == old(model.intake)
      ensures connections.Keys == old(connections).Keys + if id == self then {} else {id}
      ensures id == self || id in old(connections) ==> peerIds == old(peerIds) && totalPeers == old(totalPeers)
      ensures id != self && id !in old(connections) ==>
                && connections[id].UniqId == old(totalPeers) && peerIds == old(peerIds)[old(totalPeers) := id]
                && totalPeers == (old(totalPeers) + 1) % 0x1_0000_0000
      ensures forall i :: i in old(connections) ==> i in connections && connections[i] == old(connections)[i]
      ensures forall i :: i in connections && i !in old(connections) ==> fresh(connections[i])
    {
      hide BetweenCalls, ConnsMatch, Apart, AddConn;
      MatchedKeys(connections, model.conns);
      ConnectedReachable(model, id);
      if id == self || id in connections {
        return;
      }
      var conn := AddConnection(id, Connected(model, id));
    }

    /**
     An inbound stream: a new stream for the connection there is, which is then just connected
     unless it is terminated, or a new connection, which keeps its first status.
     */
    method OnConnect(id: PeerId)
      requires Valid()
      modifies this`connections, this`peerIds, this`totalPeers, this`model
      modifies connections.Values`status, connections.Values`inboundStream
      ensures Valid() && model == Streamed(old(model), id)
      ensures id in connections
      ensures id in old(connections) ==> peerIds == old(peerIds) && totalPeers == old(totalPeers)
      ensures id !in old(connections) ==>
                && connections[id].UniqId == old(totalPeers) && peerIds == old(peerIds)[old(totalPeers) := id]
                && totalPeers == (old(totalPeers) + 1) % 0x1_0000_0000
      ensures forall i :: i in old(connections) ==>
                && i in connections && connections[i] == old(connections)[i]
                && (i != id ==> unchanged(old(connections)[i]))
      ensures id in old(connections) ==>
                && connections == old(connections)
                && connections[id].model == old(connections[id].model)
                && connections[id].inboundStream
                   == (old(connections[id].inboundStream) || old(connections[id].status) != Status.Terminated)
                && connections[id].status == if old(connections[id].status) == Status.Terminated
                                             then Status.Terminated else Status.JustConnected
      ensures id !in old(connections) ==>
                && fresh(connections[id]) && connections == old(connections)[id := connections[id]]
                && connections[id].inboundStream && connections[id].status == Status.NotConnected
                && connections[id].model == C.N.Initial(SpamWindow.SPAM_STORE_THRESHOLD, old(totalPeers))
    {
      hide BetweenCalls, ConnsMatch, Apart, MapsMatch, AddConn;
      assert this !in Footprint(connections);
      MatchedKeys(connections, model.conns);
      MapsAreBetweenCalls(this);
      StreamedReachable(model, id);
      if id in connections {
        AllApartFrom(connections, id);
        SetStream(id, connections[id]);
      } else {
        AddStream(id);
      }
    }

    /** A connection made for an inbound stream. */
    method AddStream(id: PeerId)
      requires Consistent() && id !in connections
      requires BetweenCalls(Streamed(model, id)) && Streamed(model, id).intake == model.intake
      modifies this`connections, this`peerIds, this`totalPeers, this`model
      ensures Consistent() && model == Streamed(old(model), id) && model.intake == old(model.intake)
      ensures id in connections && fresh(connections[id]) && connections == old(connections)[id := connections[id]]
      ensures connections[id].inboundStream && connections[id].status == Status.NotConnected
      ensures connections[id].model == C.N.Initial(SpamWindow.SPAM_STORE_THRESHOLD, old(totalPeers))
      ensures connections[id].UniqId == old(totalPeers) && peerIds == old(peerIds)[old(totalPeers) := id]
      ensures totalPeers == (old(totalPeers) + 1) % 0x1_0000_0000
    {
      hide BetweenCalls, ConnsMatch, Apart, MapsMatch, AddConn;
      assert this !in Footprint(connections);
      MatchedKeys(connections, model.conns);
      var conn := AddConnection(id, Streamed(model, id));
      StartWithStream(id, conn);
    }

    method SetStream(id: PeerId, c: C.Connection)
      requires id in connections && c == connections[id]
      requires Apart(connections) && ConnsMatch(connections, model.conns)
      modifies c`status, c`inboundStream
      ensures ConnsMatch(connections, model.conns)
      ensures c.inboundStream == (old(c.inboundStream) || old(c.status) != Status.Terminated)
      ensures c.status == if old(c.status) == Status.Terminated then Status.Terminated else Status.JustConnected
    {
      hide C.Connection.Valid, WasHanded, ConnsMatch, Apart;
      MatchedKeys(connections, model.conns);
      SplitOff(connections, model.conns, id);
      c.SetInboundStream();
      JoinBack(connections, model.conns, id, model.conns[id]);
    }

    /** A connection made for an inbound stream has it from the start. */
    method StartWithStream(id: PeerId, c: C.Connection)
      requires id in connections && c == connections[id]
      requires Apart(connections) && ConnsMatch(connections, model.conns)
      modifies c`inboundStream
      ensures ConnsMatch(connections, model.conns) && c.inboundStream
    {
      hide C.Connection.Valid, WasHanded, ConnsMatch, Apart;
      MatchedKeys(connections, model.conns);
      SplitOff(connections, model.conns, id);
      c.StartWithStream();
      JoinBack(connections, model.conns, id, model.conns[id]);
    }

    /** Every peer of a received list that is neither this node nor connected yet. */
    method UpdatePeerList(newPeers: seq<PeerId>)
      requires Valid()
      modifies this`connections, this`peerIds, this`totalPeers, this`model
      ensures Valid() && model == AllConnected(old(model), newPeers)
      ensures messages == old(messages) && bannedPeer == old(bannedPeer)
      ensures connections.Keys == old(connections).Keys + (set i | i in newPeers && i != self)
      ensures |connections| >= |old(connections)|
      ensures MovedOn(old(totalPeers), totalPeers, |connections| - |old(connections)|)
      ensures |connections| <= 0x1_0000_0000 ==>
                forall i :: i in connections && i !in old(connections) ==>
                  FoundUnder(peerIds, i, connections[i].UniqId) && connections[i].UniqId !in old(peerIds)
      ensures forall i :: i in old(connections) ==> i in connections && connections[i] == old(connections)[i]
    {
      hide BetweenCalls, Consistent, AllConnected, FoundUnder, MovedOn;
      ConnectAll(newPeers);
    }

    // ----- keys -----

    /** The key part of a handler has just set `key` on the connection with `id`; now its callback runs. */
    method KeySet(id: PeerId, c: C.Connection, key: Key)
      requires id in connections && c == connections[id] && id in model.conns && key != ""
      requires MapsMatch() && model.intake.started && Apart(connections)
      requires ConnsMatch(connections, model.conns[id := Keyed(model.conns[id], key)])
      modifies this`messages, this`model
      modifies c.messageQueue, c`model, c`isBanned
      ensures Valid() && connections == old(connections)
      ensures model == KeyRecovered(old(model), id, key)
      ensures c.model == AfterRecovery(old(c.model), old(model), key)
      ensures messages == old(messages)[key := []]
      ensures c.isBanned == (old(c.isBanned) || (key in bannedPeer && bannedPeer[key]))
      ensures c.messageQueue.queue
              == old(c.messageQueue.queue) + if old(c.isBanned) then [] else WithData(old(Waiting(key)))
    {
      hide BetweenCalls, ConnsMatch, Apart, RecoveredStep, AfterCallback;
      assert this !in Footprint(connections);
      NoteKey(id, key);
      OnPublicKeyRecovered(id, c, key);
    }

    ghost method NoteKey(id: PeerId, key: Key)
      requires MapsMatch() && model.intake.started && id in model.conns && key != ""
      modifies this`model
      ensures MapsMatch() && model.intake.started && model == SetKeyStep(old(model), Entered(id), key)
      ensures model.conns == old(model).conns[id := Keyed(old(model).conns[id], key)]
      ensures key in model.conns[id].callbacks
      ensures MessagesFor(model, key) == MessagesFor(old(model), key)
      ensures IsBanned(model, key) == IsBanned(old(model), key)
    {
      hide BetweenCalls;
      SetKeyReachable(model, id, key);
      var before := model;
      model := SetKeyStep(model, Entered(id), key);
      assert forall k :: MessagesFor(model, k) == MessagesFor(before, k);
    }

    /**
     Sets the key of the connection with this number from outside. `canonical` is the key that
     `given` denotes, if it denotes one; `None` is the panic for a number that names no connection.
     */
    method SetPeerPublicKey(given: Key, canonical: Option<Key>, uniqId: uint32)
      returns (r: Option<bool>, ghost id: PeerId, ghost changed: bool)
      requires Valid() && (canonical.Some? ==> given != "")
      modifies this`messages, this`model, Queues(connections), connections.Values`model, connections.Values`isBanned
      modifies connections.Values`status, connections.Values`PeerPublicKey, connections.Values`inboundStream
      modifies connections.Values`recoveredKeys
      ensures Valid() && connections == old(connections)
      ensures |old(model).conns| <= TWO_32 ==> (r.Some? <==> uniqId < |old(model).conns|)
      ensures r.Some? ==> uniqId in peerIds && id == peerIds[uniqId] && id in connections && id in old(model).conns
      ensures r.Some? ==> (r.value <==> KeyTaken(old(connections[id].status), old(model).conns[id].key, canonical))
      ensures r.Some? ==>
                && connections[id].status == StatusAfter(old(connections[id].status), changed)
                && connections[id].inboundStream
                   == (old(connections[id].inboundStream)
                       && (r.value || old(connections[id].status) == Status.Terminated))
      ensures r.Some? <==> uniqId in peerIds && peerIds[uniqId] in connections
      ensures changed <==> r == Some(true) && old(connections[id].PeerPublicKey) == ""
      ensures changed ==>
                && connections[id].PeerPublicKey == given && messages == old(messages)[given := []]
                && connections[id].messageQueue.queue
                   == old(connections[id].messageQueue.queue)
                      + if old(connections[id].isBanned) then [] else WithData(old(Waiting(given)))
      ensures !changed ==> messages == old(messages)
      ensures r.Some? && !changed ==> connections[id].PeerPublicKey == old(connections[id].PeerPublicKey)
      ensures r.Some? ==>
                RegistryAfter(old(model), model, old(connections[id].model), connections[id].model, id, given, changed)
      ensures r.None? ==> model == old(model)
      ensures forall i :: i in connections && !(r.Some? && i == id) ==> unchanged(connections[i])
    {
      hide BetweenCalls, ConnsMatch, Apart, KeyRecovered, AfterRecovery, KeyTaken, StatusAfter;
      id, changed := "", false;
      MapsAreBetweenCalls(this);
      NumberNames(model, uniqId);
      MatchedKeys(connections, model.conns);
      if uniqId !in peerIds {
        return None, id, false;
      }
      var name := peerIds[uniqId];
      if name !in connections {
        return None, id, false;
      }
      id := name;
      StandsApart(this, name);
      var ok, set_ := TrySetKey(name, connections[name], given, canonical);
      if set_ {
        KeySet(name, connections[name], given);
      }
      r, changed := Some(ok), set_;
    }

    method TrySetKey(id: PeerId, c: C.Connection, given: Key, canonical: Option<Key>) returns (ok: bool, set_: bool)
      requires id in connections && c == connections[id] && id in model.conns
      requires Apart(connections) && ConnsMatch(connections, model.conns)
      requires canonical.Some? ==> given != ""
      modifies c`status, c`PeerPublicKey, c`inboundStream, c`recoveredKeys
      ensures ok <==> KeyTaken(old(c.status), model.conns[id].key, canonical)
      ensures (set_ <==> ok && model.conns[id].key == "") && (set_ ==> given != "")
      ensures c.status == StatusAfter(old(c.status), set_)
      ensures c.PeerPublicKey == if set_ then given else old(c.PeerPublicKey)
      ensures c.inboundStream == (old(c.inboundStream) && (ok || old(c.status) == Status.Terminated))
      ensures ConnsMatch(connections, if set_ then model.conns[id := Keyed(model.conns[id], given)] else model.conns)
    {
      hide C.Connection.Valid, Status.Perform, WasHanded, ConnsMatch, Apart;
      SplitOff(connections, model.conns, id);
      var before := c.PeerPublicKey;
      if canonical.Some? {
        Status.PerformOutsideKey(given, canonical.value, c.status, before);
      }
      ok := c.TrySetPeerPublicKey(given, canonical);
      set_ := ok && before == "";
      KeepsHanded(model.conns, id, given);
      JoinBack(connections, model.conns, id, if set_ then Keyed(model.conns[id], given) else model.conns[id]);
    }

    // ----- the cycles of a connection -----

    /**
     A frame was read on the connection with `id`. If it proves a key the connection can have, the
     callback runs; if it is a list of peers, they are registered. `panicked` is the panic on data
     that is too short for a signature or no list.
     */
    method OnFrame(id: PeerId, f: Frame, svc: C.Services)
      returns (panicked: bool, ghost called: bool, ghost listed: bool)
      requires Valid() && id in connections && forall bs :: svc.ecRecover(bs) != Some("")
      modifies this`messages, this`model, this`connections, this`peerIds, this`totalPeers
      modifies connections[id], connections[id].messageQueue, connections[id].receivedMsgId
      ensures Valid() && id in old(model).conns
      ensures panicked <==> old(connections[id].IsNew(f)) && old(connections[id].FramePanics(f, svc))
      ensures called <==> old(connections[id].IsNew(f)) && f.kind == SIGNATURE
                          && C.KeyAccepted(svc, f.data, old(connections[id].status), old(connections[id].PeerPublicKey))
      ensures listed <==> old(connections[id].IsNew(f)) && old(connections[id].ListsPeers(f, svc))
      ensures forall i :: i in old(connections) ==> i in connections && connections[i] == old(connections)[i]
      ensures !listed ==> connections == old(connections)
      ensures listed ==> connections.Keys
                         == old(connections).Keys + (set i | i in svc.peersIn(f.data).value && i != self)
      ensures called ==> connections[id].PeerPublicKey == C.SignedKey(svc, f.data).value
      ensures messages == if called then old(messages)[C.SignedKey(svc, f.data).value := []] else old(messages)
      ensures model == if called then KeyRecovered(old(model), id, C.SignedKey(svc, f.data).value)
                       else if listed then AllConnected(old(model), svc.peersIn(f.data).value) else old(model)
      ensures connections[id].model ==
              if called
              then AfterRecovery(C.N.ReceiveStep(old(connections[id].model), f), old(model),
                                 C.SignedKey(svc, f.data).value)
              else C.N.ReceiveStep(old(connections[id].model), f)
      ensures connections[id].status == StatusAfter(old(connections[id].status), called)
      ensures connections[id].inboundStream
              == (old(connections[id].inboundStream)
                  && (!old(connections[id].IsNew(f)) || f.kind != SIGNATURE || panicked || called
                      || old(connections[id].status) == Status.Terminated))
    {
      hide BetweenCalls, ConnsMatch, Apart, MapsMatch, KeyRecovered, AfterRecovery, AllConnected;
      hide C.KeyAccepted, C.SignedKey, StatusAfter, C.Connection.IsNew, C.Connection.FramePanics, C.N.ReceiveStep;
      hide FoundUnder, MovedOn, WithData;
      assert this !in Footprint(connections);
      MatchedKeys(connections, model.conns);
      ghost var c := connections[id];
      var proved, peers;
      panicked, proved, peers := TakeFrame(id, connections[id], f, svc);
      called, listed := proved, peers.Some?;
      if proved {
        KeySet(id, connections[id], connections[id].PeerPublicKey);
      } else if peers.Some? {
        UpdatePeerList(peers.value);
      }
    }

    method TakeFrame(id: PeerId, c: C.Connection, f: Frame, svc: C.Services)
      returns (panicked: bool, called: bool, peers: Option<seq<PeerId>>)
      requires id in connections && c == connections[id] && id in model.conns
      requires Apart(connections) && ConnsMatch(connections, model.conns)
      requires forall bs :: svc.ecRecover(bs) != Some("")
      modifies c`msgSpamCount, c`confirmReceived, c`delivered, c`model, c.receivedMsgId, c.messageQueue
      modifies c`status, c`PeerPublicKey, c`inboundStream, c`recoveredKeys, c`peerLists
      ensures panicked <==> old(c.IsNew(f)) && old(c.FramePanics(f, svc))
      ensures called <==> old(c.IsNew(f)) && f.kind == SIGNATURE
                          && C.KeyAccepted(svc, f.data, old(c.status), old(c.PeerPublicKey))
      ensures peers == if old(c.IsNew(f)) && old(c.ListsPeers(f, svc)) then svc.peersIn(f.data) else None
      ensures c.model == C.N.ReceiveStep(old(c.model), f)
      ensures c.status == StatusAfter(old(c.status), called)
      ensures c.inboundStream == (old(c.inboundStream)
                                  && (!old(c.IsNew(f)) || f.kind != SIGNATURE || panicked || called
                                      || old(c.status) == Status.Terminated))
      ensures called ==>
                C.SignedKey(svc, f.data) == Some(c.PeerPublicKey) && c.PeerPublicKey != "" && f.kind == SIGNATURE
      ensures ConnsMatch(connections,
                         if called then model.conns[id := Keyed(model.conns[id], c.PeerPublicKey)] else model.conns)
    {
      hide C.Connection.Valid, C.Connection.IsNew, C.Connection.FramePanics, Status.Perform, WasHanded, C.N.ReceiveStep;
      hide ConnsMatch, Apart;
      SplitOff(connections, model.conns, id);
      ghost var before := c.PeerPublicKey;
      var calls, lists := |c.recoveredKeys|, |c.peerLists|;
      if C.SignedKey(svc, f.data).Some? {
        Status.PerformSignature(C.SignedKey(svc, f.data).value, c.status, before);
      }
      ReceivedIsHanded(c.model, model.conns[id], f);
      panicked := c.ReceiveFrame(f, svc);
      called := |c.recoveredKeys| > calls;
      peers := if |c.peerLists| > lists then Some(c.peerLists[lists]) else None;
      KeepsHanded(model.conns, id, c.PeerPublicKey);
      JoinBack(connections, model.conns, id,
               if called then Keyed(model.conns[id], c.PeerPublicKey) else model.conns[id]);
    }

    /** The send cycle of the connection with `id` runs on. */
    method RunSendCycle(id: PeerId, outcomes: seq<C.Outcome>)
      requires Valid() && id in connections
      modifies connections[id], connections[id].messageQueue
      ensures Valid() && model == old(model) && connections == old(connections)
      ensures C.AtRest(old(connections[id].model).pc)
              && connections[id].model == C.Passes(old(connections[id].model), outcomes)
    {
      hide BetweenCalls, MapsMatch, C.Passes, C.Connection.Valid, WasHanded, ConnsMatch, Apart;
      assert this !in Footprint(connections);
      MatchedKeys(connections, model.conns);
      var c := connections[id];
      SplitOff(connections, model.conns, id);
      RestsBetween(c);
      CycleIsHanded(c.model, model.conns[id], outcomes);
      c.SendMessageCycle(outcomes);
      JoinBack(connections, model.conns, id, model.conns[id]);
    }
  }

  /** A key from outside is taken: the connection is not terminated and has no other key. */
  predicate KeyTaken(status: Status.Status, key: Key, canonical: Option<Key>) {
    status != Status.Terminated && canonical.Some? && (key == "" || key == canonical.value)
  }

  /** A connection whose key has been set has completed its handshake. */
  function StatusAfter(status: Status.Status, keySet: bool): Status.Status {
    if keySet then Status.HandshakeComplete else status
  }

  /** What becomes of the registry, and of the connection with `id`, when its key is set to `key` or not. */
  ghost predicate RegistryAfter(s: State, s': State, n: C.N.Node, n': C.N.Node, id: PeerId, key: Key, keySet: bool)
    requires id in s.conns
  {
    if keySet then s' == KeyRecovered(s, id, key) && n' == AfterRecovery(n, s, key) else s' == s && n' == n
  }

  // ----- what the connections were given -----

  /** A connection after it was given all of `msgs`, in order. */
  ghost function SendAll(n: C.N.Node, msgs: seq<Envelope>): C.N.Node {
    if msgs == [] then n else C.N.SendStep(SendAll(n, msgs[..|msgs| - 1]), msgs[|msgs| - 1])
  }

  /** A connection after its callback. */
  ghost function AfterCallback(n: C.N.Node, msgs: seq<Envelope>, banned: bool): C.N.Node {
    if banned then AfterBan(SendAll(n, msgs), true) else SendAll(n, msgs)
  }

  /** A connection after its callback for `key` in state `s`: what waits for the key, then the key's ban. */
  ghost function AfterRecovery(n: C.N.Node, s: State, key: Key): C.N.Node {
    AfterCallback(n, C.EnvelopesOf(MessagesFor(s, key)), IsBanned(s, key))
  }

  /** A connection after it was banned or unbanned. */
  ghost function AfterBan(n: C.N.Node, on: bool): C.N.Node {
    C.N.Step(n, C.N.SetBan(on))
  }

  lemma BanIsHanded(n: C.N.Node, conn: Conn, on: bool)
    requires WasHanded(n, conn)
    ensures WasHanded(AfterBan(n, on), conn.(banned := on))
  {
    hide FromOutside;
  }

  /** The messages that carry data, in order. */
  function WithData(msgs: seq<Envelope>): seq<Envelope> {
    if msgs == [] then []
    else
      var k := |msgs| - 1;
      WithData(msgs[..k]) + if msgs[k].data == None then [] else [msgs[k]]
  }

  lemma NoData(msgs: seq<Envelope>)
    ensures WithData(msgs[..0]) == []
  {
  }

  lemma OneMoreWithData(msgs: seq<Envelope>, i: nat)
    requires i < |msgs|
    ensures WithData(msgs[..i + 1]) == WithData(msgs[..i]) + if msgs[i].data == None then [] else [msgs[i]]
  {
    assert msgs[..i + 1][..i] == msgs[..i];
  }

  lemma NoneSent(n: C.N.Node, msgs: seq<Envelope>)
    ensures SendAll(n, msgs[..0]) == n
  {
  }

  lemma OneMoreSent(n: C.N.Node, msgs: seq<Envelope>, i: nat)
    requires i < |msgs|
    ensures SendAll(n, msgs[..i + 1]) == C.N.SendStep(SendAll(n, msgs[..i]), msgs[i])
  {
    assert msgs[..i + 1][..i] == msgs[..i];
  }

  /** The entries with that of `id` given all of `ts`. */
  function WithGiven(conns: map<PeerId, Conn>, id: PeerId, ts: seq<Ticket>): map<PeerId, Conn>
    requires id in conns
  {
    conns[id := GivenAll(conns[id], ts)]
  }

  lemma NoneGiven(conns: map<PeerId, Conn>, id: PeerId, ts: seq<Ticket>)
    requires id in conns
    ensures WithGiven(conns, id, ts[..0]) == conns
  {
  }

  lemma OneMoreGiven(conns: map<PeerId, Conn>, id: PeerId, ts: seq<Ticket>, i: nat)
    requires id in conns && i < |ts|
    ensures var given := WithGiven(conns, id, ts[..i]);
            given[id := Given(given[id], ts[i])] == WithGiven(conns, id, ts[..i + 1])
  {
    assert ts[..i + 1][..i] == ts[..i];
  }

  /** The entries say the same of the objects. */
  lemma SameConnsMatch(connections: map<PeerId, C.Connection>, conns: map<PeerId, Conn>, conns': map<PeerId, Conn>)
    requires ConnsMatch(connections, conns) && conns'.Keys == conns.Keys
    requires forall id :: id in conns ==>
               && conns'[id].key == conns[id].key && conns'[id].uniqId == conns[id].uniqId
               && conns'[id].handed == conns[id].handed && conns'[id].banned == conns[id].banned
    ensures ConnsMatch(connections, conns')
  {
    hide C.Connection.Valid;
    forall id | id in connections ensures ConnMatches(connections[id], conns'[id]) {
      assert ConnMatches(connections[id], conns[id]);
    }
  }

  lemma SendIsHanded(n: C.N.Node, conn: Conn, t: Ticket)
    requires WasHanded(n, conn) && t.env.kind != ConfirmReply
    ensures WasHanded(C.N.SendStep(n, t.env), Given(conn, t))
  {
    StepFromOutside(n, C.N.Send(t.env));
    assert C.EnvelopesOf(conn.handed + [t]) == C.EnvelopesOf(conn.handed) + [t.env];
    hide FromOutside;
  }

  lemma ReceivedIsHanded(n: C.N.Node, conn: Conn, f: Frame)
    requires WasHanded(n, conn)
    ensures WasHanded(C.N.ReceiveStep(n, f), conn)
  {
    hide FromOutside, C.N.ReceiveStep;
    assert C.N.Step(n, C.N.Receive(f)) == C.N.ReceiveStep(n, f);
    hide C.N.Step;
    StepFromOutside(n, C.N.Receive(f));
    ReceivedBan(n, f);
  }

  lemma ReceivedBan(n: C.N.Node, f: Frame)
    ensures C.N.ReceiveStep(n, f).banned == n.banned
  {
    hide SpamWindow.Arrive, ReplyTo, C.N.Prefixed;
  }

  lemma CycleIsHanded(n: C.N.Node, conn: Conn, outcomes: seq<C.Outcome>)
    requires WasHanded(n, conn) && C.AtRest(n.pc)
    ensures WasHanded(C.Passes(n, outcomes), conn)
  {
    CycleTheorems.CycleAddsNothing(n, outcomes);
    hide FromOutside, C.Passes;
  }

  lemma KeepsHanded(conns: map<PeerId, Conn>, id: PeerId, key: Key)
    requires id in conns
    ensures forall n :: WasHanded(n, conns[id]) ==> WasHanded(n, Keyed(conns[id], key))
  {
  }

  lemma RestsBetween(c: C.Connection)
    requires c.Valid()
    ensures C.AtRest(c.model.pc)
  {
  }

  // ----- the maps -----

  lemma NothingYet(p: PeerService)
    requires p.connections == map[] && p.messages == map[] && p.peerIds == map[] && p.bannedPeer == map[]
    requires p.totalPeers == 0 && p.model == Start(p.self)
    ensures p.Consistent() && !p.model.intake.started && Footprint(p.connections) == {}
  {
    StartBetweenCalls(p.self);
    hide BetweenCalls;
  }

  lemma MapsAreBetweenCalls(p: PeerService)
    requires p.MapsMatch()
    ensures BetweenCalls(p.model)
    ensures p.self == p.model.self && p.totalPeers == p.model.totalPeers && p.peerIds == p.model.peerIds
  {
  }

  lemma NoneIsReply(s: State, key: Key)
    requires BetweenCalls(s)
    ensures forall t :: t in MessagesFor(s, key) ==> t.env.kind != ConfirmReply
  {
    ReachableInvariant(s);
    MessageLedger.WaitingFromOutside(s, key);
  }

  lemma StartBetweenCalls(self: PeerId)
    ensures BetweenCalls(Start(self))
  {
    StartReachable(self);
  }

  lemma HasStarted(s: State)
    requires BetweenCalls(s) && !s.intake.started
    ensures Enabled(s, Action.Started) && BetweenCalls(Step(s, Action.Started))
    ensures Step(s, Action.Started) == WithStarted(s)
    ensures forall k :: MessagesFor(Step(s, Action.Started), k) == MessagesFor(s, k)
  {
    hide Reachable;
    StepReachable(s, Action.Started);
  }

  lemma NumberNames(s: State, u: uint32)
    requires BetweenCalls(s)
    ensures |s.conns| <= TWO_32 ==> (u in s.peerIds <==> u < |s.conns|)
    ensures |s.conns| <= TWO_32 && u in s.peerIds ==> s.peerIds[u] in s.conns
  {
    NumbersMatchConnections(s);
    hide BetweenCalls;
    if |s.conns| <= TWO_32 {
      assert NumberOk(s, u);
    }
  }

  /** The connection with `id` and the others, which share nothing with it. */
  lemma StandsApart(p: PeerService, id: PeerId)
    requires p.Consistent() && id in p.connections
    ensures id in p.model.conns && p.connections[id].PeerPublicKey == p.model.conns[id].key
    ensures p !in Footprint(p.connections)
    ensures forall i :: i in p.connections && i != id ==>
              && p.connections[i] != p.connections[id]
              && p.connections[i].messageQueue != p.connections[id].messageQueue
  {
    hide BetweenCalls, WasHanded, C.Connection.Valid;
    assert ConnMatches(p.connections[id], p.model.conns[id]);
  }

  lemma AllApartFrom(connections: map<PeerId, C.Connection>, id: PeerId)
    requires Apart(connections) && id in connections
    ensures forall i :: i in connections && i != id ==>
              connections[i] != connections[id] && connections[i].messageQueue != connections[id].messageQueue
  {
  }

  lemma ApartWith(connections: map<PeerId, C.Connection>, id: PeerId, c: C.Connection)
    requires Apart(connections) && id !in connections
    requires c !in Footprint(connections) && c.messageQueue !in Footprint(connections)
    requires c.receivedMsgId !in Footprint(connections)
    ensures Apart(connections[id := c])
  {
  }

  lemma ApartOthers(connections: map<PeerId, C.Connection>, id: PeerId)
    requires Apart(connections) && id in connections
    ensures connections[id] !in Footprint(connections - {id})
    ensures connections[id].messageQueue !in Footprint(connections - {id})
    ensures connections[id].receivedMsgId !in Footprint(connections - {id})
  {
  }

  lemma MatchOthers(connections: map<PeerId, C.Connection>, conns: map<PeerId, Conn>, id: PeerId)
    requires ConnsMatch(connections, conns) && id in connections && id in conns
    ensures ConnMatches(connections[id], conns[id]) && ConnsMatch(connections - {id}, conns - {id})
  {
    hide C.Connection.Valid, WasHanded, Footprint;
  }

  /** The connection with `id` by itself, and the others, which share nothing with it. */
  lemma SplitOff(connections: map<PeerId, C.Connection>, conns: map<PeerId, Conn>, id: PeerId)
    requires Apart(connections) && ConnsMatch(connections, conns) && id in connections && id in conns
    ensures ConnMatches(connections[id], conns[id]) && ConnsMatch(connections - {id}, conns - {id})
    ensures connections[id] !in Footprint(connections - {id})
    ensures connections[id].messageQueue !in Footprint(connections - {id})
    ensures connections[id].receivedMsgId !in Footprint(connections - {id})
  {
    hide ConnsMatch, ConnMatches, Apart, Footprint;
    MatchOthers(connections, conns, id);
    ApartOthers(connections, id);
  }

  /** Put together again, with a new entry for the connection. */
  lemma JoinBack(connections: map<PeerId, C.Connection>, conns: map<PeerId, Conn>, id: PeerId, conn: Conn)
    requires id in connections && id in conns
    requires ConnMatches(connections[id], conn) && ConnsMatch(connections - {id}, conns - {id})
    ensures ConnsMatch(connections, conns[id := conn])
    ensures conn == conns[id] ==> ConnsMatch(connections, conns)
  {
    hide C.Connection.Valid, WasHanded;
    assert connections.Keys == (connections - {id}).Keys + {id};
    assert conns.Keys == (conns - {id}).Keys + {id};
    forall i | i in connections ensures ConnMatches(connections[i], conns[id := conn][i]) {
      if i != id {
        assert ConnMatches((connections - {id})[i], (conns - {id})[i]);
      }
    }
    assert conns[id := conns[id]] == conns;
  }

  /** A connection as it is made. */
  ghost predicate JustMade(c: C.Connection)
    reads c, c.messageQueue, c.receivedMsgId
  {
    c.Valid() && c.PeerPublicKey == "" && c.model.put == [] && !c.model.banned
  }

  lemma StandsNew(c: C.Connection)
    requires c.Valid() && c.PeerPublicKey == "" && (exists t, u :: c.model == C.N.Initial(t, u))
    ensures JustMade(c)
  {
    hide C.Connection.Valid;
  }

  lemma MatchWith(connections: map<PeerId, C.Connection>, conns: map<PeerId, Conn>, id: PeerId, c: C.Connection)
    requires ConnsMatch(connections, conns) && id !in connections
    requires JustMade(c)
    ensures ConnsMatch(connections[id := c], conns[id := NewConn(c.UniqId)])
  {
    hide C.Connection.Valid;
    var connections', conns' := connections[id := c], conns[id := NewConn(c.UniqId)];
    assert connections'.Keys == connections.Keys + {id} == conns'.Keys;
    forall i | i in connections' ensures ConnMatches(connections'[i], conns'[i]) {
      if i != id {
        assert ConnMatches(connections[i], conns[i]);
      }
    }
  }

  lemma MatchedKeys(connections: map<PeerId, C.Connection>, conns: map<PeerId, Conn>)
    requires ConnsMatch(connections, conns)
    ensures connections.Keys == conns.Keys
  {
  }

  lemma CountedFromNone(before: map<PeerId, C.Connection>, after: map<PeerId, C.Connection>, c: uint32)
    requires before == map[]
    ensures |after| >= |before| && MovedOn(0, c, |after| - |before|) ==> MovedOn(0, c, |after|)
  {
  }

  lemma CounterMoved(before: map<PeerId, C.Connection>, after: map<PeerId, C.Connection>, s: State, s': State)
    requires before.Keys == s.conns.Keys && after.Keys == s'.conns.Keys
    requires Counts(|s.conns|, s.totalPeers, |s'.conns|, s'.totalPeers)
    ensures |after| >= |before| && MovedOn(s.totalPeers, s'.totalPeers, |after| - |before|)
  {
    assert |after| == |after.Keys| && |s'.conns| == |s'.conns.Keys|;
    assert |before| == |before.Keys| && |s.conns| == |s.conns.Keys|;
  }

  /** The connections and their numbers are those of the registry state. */
  ghost predicate NumbersAgree(connections: map<PeerId, C.Connection>, conns: map<PeerId, Conn>) {
    connections.Keys == conns.Keys && forall i :: i in connections ==> connections[i].UniqId == conns[i].uniqId
  }

  lemma NumbersMatch(p: PeerService)
    requires p.Consistent()
    ensures NumbersAgree(p.connections, p.model.conns) && p.peerIds == p.model.peerIds && BetweenCalls(p.model)
  {
    hide C.Connection.Valid, WasHanded, BetweenCalls;
    forall i | i in p.connections ensures p.connections[i].UniqId == p.model.conns[i].uniqId {
      assert ConnMatches(p.connections[i], p.model.conns[i]);
    }
  }

  /** Peer `id` is found under the number `u`, and under no other. */
  predicate FoundUnder(peerIds: map<uint32, PeerId>, id: PeerId, u: uint32) {
    u in peerIds && forall v :: v in peerIds ==> (peerIds[v] == id <==> v == u)
  }

  /** So is every peer, under the number of its connection. */
  ghost predicate AllFound(connections: map<PeerId, C.Connection>, peerIds: map<uint32, PeerId>) {
    forall i :: i in connections ==> FoundUnder(peerIds, i, connections[i].UniqId)
  }

  /** A peer that has come in is found under one number, a new one, which is its connection's. */
  lemma NewNumbers(before: map<PeerId, C.Connection>, after: map<PeerId, C.Connection>, s: State, s': State)
    requires NumbersAgree(before, s.conns) && NumbersAgree(after, s'.conns) && |before| <= |after| <= TWO_32
    requires BetweenCalls(s) && BetweenCalls(s')
    requires forall i :: i in before ==> i in after && after[i] == before[i]
    ensures forall i :: i in after && i !in before ==>
              FoundUnder(s'.peerIds, i, after[i].UniqId) && after[i].UniqId !in s.peerIds
  {
    NumbersMatchConnections(s);
    NumbersMatchConnections(s');
    hide BetweenCalls;
    assert |before| == |before.Keys| == |s.conns| && |after| == |after.Keys| == |s'.conns|;
    forall i | i in after && i !in before
      ensures FoundUnder(s'.peerIds, i, after[i].UniqId) && after[i].UniqId !in s.peerIds
    {
      OneNewNumber(s, s', i);
    }
  }

  lemma OneNewNumber(s: State, s': State, i: PeerId)
    requires Bijective(s) && Bijective(s') && i in s'.conns && i !in s.conns
    requires forall j :: j in s.conns ==> j in s'.conns && s'.conns[j].uniqId == s.conns[j].uniqId
    ensures FoundUnder(s'.peerIds, i, s'.conns[i].uniqId) && s'.conns[i].uniqId !in s.peerIds
  {
    var u := s'.conns[i].uniqId;
    assert NumberOk(s, u);
    forall j | j in s'.conns ensures s'.conns[j].uniqId in s'.peerIds && s'.peerIds[s'.conns[j].uniqId] == j {
      assert ConnOk(s', j);
    }
    forall v | v in s'.peerIds ensures s'.peerIds[v] == i <==> v == u {
      assert NumberOk(s', v);
    }
  }

  lemma BanNotFoundFrame(s: State, key: Key, on: bool)
    ensures BanNotFound(s, key, on).conns == s.conns && BanNotFound(s, key, on).intake == s.intake
  {
  }
}

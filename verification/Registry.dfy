/**
 The registry of peers, peer_service/peer_service.go, as a step system, from start to `Stop`.
 Calls that take the service lock may still be overtaken between two looks at a connection by
 a public key set outside the lock (connection.go:476, 514), so the search for a connection by
 key is taken one connection at a time, and the recovery callback waits apart from the key.

 `New` connects the bootstrap peers without the lock, while inbound streams and peer lists may
 already come in under it. So a registration is taken in three steps - the test that there is no
 connection yet, the reading of the counter, and the entry into the maps - which interleave with
 those of the one other registration there can be. The entries of a peer list are registered one
 by one, as if each took the lock anew. A connection's goroutines run before it is entered; what
 they do to its key until then is taken to happen right after the entry.
 */
module Registry {
  import opened Bytes
  import opened Envelopes
  import Status

  type PeerId = string

  type Key = Status.Key

  /** What the registry knows of a connection. */
  datatype Conn = Conn(
    key: Key,
    banned: bool,
    uniqId: uint32,
    callbacks: multiset<Key>,   // recovery callbacks that have not got the lock yet, by their keys
    // history
    handed: seq<Ticket>,        // messages it has accepted through Send
    rekeyed: bool)              // its key has been replaced by another

  function NewConn(uniqId: uint32): Conn {
    Conn("", false, uniqId, multiset{}, [], false)
  }

  /** Where a connection is: in the maps, or among those that have been displaced from them. */
  datatype Place = Entered(id: PeerId) | Orphaned(i: nat)

  /** Where a message given to SendMessageToPeer has got to. */
  datatype Fate =
    | InFlight                  // the call is still looking for a connection
    | Postponed
    | Handed(to: Place)
    | RefusedBanned
    | IgnoredEmpty              // Send ignores nil data

  /** Who holds the service lock between two steps. `left` are the connections still to be looked at. */
  datatype Holder =
    | Free
    | Sending(key: Key, t: Ticket, second: bool, left: set<PeerId>)   // first or second lookup
    | Banning(key: Key, on: bool, left: set<PeerId>)

  /** The same lookup with other connections left. */
  function WithLeft(h: Holder, left: set<PeerId>): Holder {
    match h
    case Free => Free
    case Sending(key, t, second, _) => Sending(key, t, second, left)
    case Banning(key, on, _) => Banning(key, on, left)
  }

  /** A peer on its way into the maps. `late`: the other registration has made the last step wrong. */
  datatype Registration =
    | Nobody
    | FoundNew(id: PeerId, late: bool)                  // it had no connection
    | Counted(id: PeerId, number: uint32, late: bool)   // and the counter stood at `number`

  /** How far start-up and the registrations under way have got. */
  datatype Intake = Intake(
    started: bool,             // New has returned
    boot: Registration,        // by New, without the lock
    locked: Registration,      // by an inbound stream or a peer list, which holds the lock
    overtaken: bool)           // history: a registration was completed late

  datatype Submission = Submission(key: Key, env: Envelope)

  datatype State = State(
    self: PeerId,
    conns: map<PeerId, Conn>,
    orphans: seq<Conn>,        // connections displaced from the maps; they live on
    messages: map<Key, seq<Ticket>>,
    peerIds: map<uint32, PeerId>,
    bannedPeer: map<Key, bool>,
    totalPeers: uint32,
    intake: Intake,
    holder: Holder,
    // history
    submitted: seq<Submission>,
    fate: map<nat, Fate>,
    strayBan: bool)            // a ban or unban of the empty key has found a connection

  function Start(self: PeerId): State {
    State(self, map[], [], map[], map[], map[], 0, Intake(false, Nobody, Nobody, false), Free, [], map[], false)
  }

  // ----- connections by place -----

  predicate HasPlace(s: State, p: Place) {
    match p
    case Entered(id) => id in s.conns
    case Orphaned(i) => i < |s.orphans|
  }

  function ConnAt(s: State, p: Place): Conn
    requires HasPlace(s, p)
  {
    match p
    case Entered(id) => s.conns[id]
    case Orphaned(i) => s.orphans[i]
  }

  function WithConn(s: State, p: Place, c: Conn): State
    requires HasPlace(s, p)
  {
    match p
    case Entered(id) => s.(conns := s.conns[id := c])
    case Orphaned(i) => s.(orphans := s.orphans[i := c])
  }

  function MessagesFor(s: State, key: Key): seq<Ticket> {
    if key in s.messages then s.messages[key] else []
  }

  predicate IsBanned(s: State, key: Key) {
    key in s.bannedPeer && s.bannedPeer[key]
  }

  datatype Action =
    | Bootstrap(id: PeerId)                  // New tests whether a bootstrap peer has a connection
    | BootstrapCount
    | BootstrapEnter
    | Started                                // New returns
    | OnConnect(id: PeerId)                  // an inbound stream takes the lock and tests
    | ListedPeer(id: PeerId)                 // the same for an entry of a peer list
    | Count
    | Enter
    | SetKey(p: Place, key: Key)             // a key handler assigns, and its callback is to come
    | Reread(p: Place, key: Key)             // the callback was to be for `key`, and reads the key there is now
    | Recovered(p: Place, key: Key)          // the callback, once it has the lock
    | SendMessage(key: Key, env: Envelope)   // SendMessageToPeer takes the lock
    | BanList(key: Key, on: bool)            // BanPeer or RemoveFromBanList takes the lock
    | LookAt(id: PeerId)                     // the lookup's next connection
    | NoneFound                              // the lookup has seen them all

  predicate LockFree(s: State) {
    s.holder.Free? && s.intake.locked.Nobody?
  }

  predicate CallbackDue(s: State, p: Place, key: Key) {
    HasPlace(s, p) && key in ConnAt(s, p).callbacks
  }

  /**
   Calls from outside the service come after New has returned it. A handler that has made its checks
   may assign its key at any later time, whatever the key is by then.
   */
  predicate Enabled(s: State, a: Action) {
    match a
    case Bootstrap(_) => !s.intake.started && s.intake.boot.Nobody?
    case BootstrapCount => s.intake.boot.FoundNew?
    case BootstrapEnter => s.intake.boot.Counted?
    case Started => !s.intake.started && s.intake.boot.Nobody?
    case OnConnect(_) => LockFree(s)
    case ListedPeer(_) => LockFree(s)
    case Count => s.intake.locked.FoundNew?
    case Enter => s.intake.locked.Counted?
    case SetKey(p, key) => HasPlace(s, p) && key != ""
    case Reread(p, key) => CallbackDue(s, p, key)
    case Recovered(p, key) => LockFree(s) && CallbackDue(s, p, key)
    case SendMessage(_, env) => LockFree(s) && s.intake.started && env.kind != ConfirmReply
    case BanList(_, _) => LockFree(s) && s.intake.started
    case LookAt(id) => !s.holder.Free? && id in s.holder.left && id in s.conns
    case NoneFound => !s.holder.Free? && s.holder.left == {}
  }

  /** The action replaces a key that a connection has by another. */
  predicate Replaces(s: State, a: Action) {
    a.SetKey? && HasPlace(s, a.p) && ConnAt(s, a.p).key != "" && ConnAt(s, a.p).key != a.key
  }

  // ----- new connections -----

  /** A connection under number `n`; one that is there already is displaced. The counter is 32 bits wide. */
  function AddConn(s: State, id: PeerId, n: uint32): State {
    s.(conns := s.conns[id := NewConn(n)],
       orphans := if id in s.conns then s.orphans + [s.conns[id]] else s.orphans,
       peerIds := s.peerIds[n := id],
       totalPeers := (n + 1) % TWO_32)
  }

  /** What the entry of `id` makes of the other registration. */
  function Disturbed(r: Registration, id: PeerId): Registration {
    match r
    case Nobody => r
    case FoundNew(i, late) => FoundNew(i, late || i == id)
    case Counted(i, n, _) => Counted(i, n, true)
  }

  function AfterCount(r: Registration, totalPeers: uint32): Registration
    requires r.FoundNew?
  {
    Counted(r.id, totalPeers, r.late)
  }

  function EnterStep(s: State): State
    requires Enabled(s, Enter)
  {
    var r := s.intake.locked;
    var m := AddConn(s, r.id, r.number);
    m.(intake := m.intake.(locked := Nobody, boot := Disturbed(s.intake.boot, r.id),
                           overtaken := s.intake.overtaken || r.late))
  }

  function BootstrapEnterStep(s: State): State
    requires Enabled(s, BootstrapEnter)
  {
    var r := s.intake.boot;
    var m := AddConn(s, r.id, r.number);
    m.(intake := m.intake.(boot := Nobody, locked := Disturbed(s.intake.locked, r.id),
                           overtaken := s.intake.overtaken || r.late))
  }

  // ----- messages -----

  /** What becomes of a message given to connection `c` at `p` through Send. */
  function SendFate(c: Conn, p: Place, t: Ticket): Fate {
    if t.env.data == None then IgnoredEmpty else if c.banned then RefusedBanned else Handed(p)
  }

  /** A connection after Send was called with message `t`. */
  function Given(c: Conn, t: Ticket): Conn {
    if c.banned || t.env.data == None then c else c.(handed := c.handed + [t])
  }

  /** Connection.Send. */
  function HandOver(s: State, p: Place, t: Ticket): State
    requires HasPlace(s, p)
  {
    var c := ConnAt(s, p);
    WithConn(s, p, Given(c, t)).(fate := s.fate[t.no := SendFate(c, p, t)])
  }

  /** The first postponed message for `key` is taken off its list. */
  function Popped(s: State, key: Key): State
    requires MessagesFor(s, key) != []
  {
    s.(messages := s.messages[key := MessagesFor(s, key)[1..]])
  }

  /** Hands over the first postponed message for `key`. */
  function FlushOne(s: State, p: Place, key: Key): State
    requires HasPlace(s, p) && MessagesFor(s, key) != []
  {
    HandOver(Popped(s, key), p, MessagesFor(s, key)[0])
  }

  /** Hands over all of them, in order. */
  function Flush(s: State, p: Place, key: Key): (s': State)
    requires HasPlace(s, p)
    ensures MessagesFor(s', key) == [] && HasPlace(s', p)
    decreases |MessagesFor(s, key)|
  {
    if MessagesFor(s, key) == [] then s else Flush(FlushOne(s, p, key), p, key)
  }

  function SetBan(s: State, p: Place, on: bool): State
    requires HasPlace(s, p)
  {
    WithConn(s, p, ConnAt(s, p).(banned := on))
  }

  /** The callback for `key` is no longer to come. */
  function CallbackTaken(s: State, p: Place, key: Key): State
    requires HasPlace(s, p)
  {
    WithConn(s, p, ConnAt(s, p).(callbacks := ConnAt(s, p).callbacks - multiset{key}))
  }

  /** The recovery callback: postponed messages first, then the ban. */
  function RecoveredStep(s: State, p: Place, key: Key): State
    requires HasPlace(s, p)
  {
    var flushed := Flush(CallbackTaken(s, p, key), p, key);
    if IsBanned(flushed, key) then SetBan(flushed, p, true) else flushed
  }

  /** A connection whose key was assigned. */
  function Keyed(c: Conn, key: Key): Conn {
    c.(key := key, callbacks := c.callbacks + multiset{key}, rekeyed := c.rekeyed || (c.key != "" && c.key != key))
  }

  function SetKeyStep(s: State, p: Place, key: Key): State
    requires HasPlace(s, p)
  {
    WithConn(s, p, Keyed(ConnAt(s, p), key))
  }

  function RereadStep(s: State, p: Place, key: Key): State
    requires HasPlace(s, p)
  {
    var c := ConnAt(s, p);
    WithConn(s, p, c.(callbacks := c.callbacks - multiset{key} + multiset{c.key}))
  }

  function SubmitStep(s: State, key: Key, env: Envelope): State {
    var no := |s.submitted|;
    s.(submitted := s.submitted + [Submission(key, env)], fate := s.fate[no := InFlight],
       holder := Sending(key, Ticket(no, env), false, s.conns.Keys))
  }

  function BanListStep(s: State, key: Key, on: bool): State {
    s.(bannedPeer := s.bannedPeer[key := on], holder := Banning(key, on, s.conns.Keys))
  }

  /** storeMessage, with no connection found the second time either. */
  function StoreStep(s: State, key: Key, t: Ticket): State {
    if IsBanned(s, key) then s.(fate := s.fate[t.no := RefusedBanned])
    else s.(messages := s.messages[key := MessagesFor(s, key) + [t]], fate := s.fate[t.no := Postponed])
  }

  function LookAtStep(s: State, id: PeerId): State
    requires Enabled(s, LookAt(id))
  {
    if s.conns[id].key != s.holder.key then s.(holder := WithLeft(s.holder, s.holder.left - {id}))
    else match s.holder
      case Sending(_, t, _, _) => HandOver(s, Entered(id), t).(holder := Free)
      case Banning(key, on, _) => SetBan(s, Entered(id), on).(holder := Free, strayBan := s.strayBan || key == "")
  }

  function NoneFoundStep(s: State): State
    requires Enabled(s, NoneFound)
  {
    match s.holder
    case Sending(key, t, second, _) =>
      if second then StoreStep(s, key, t).(holder := Free)
      else s.(holder := Sending(key, t, true, s.conns.Keys))
    case Banning(_, _, _) => s.(holder := Free)
  }

  function Step(s: State, a: Action): State
    requires Enabled(s, a)
  {
    match a
    case Bootstrap(id) =>
      if id == s.self || id in s.conns then s else s.(intake := s.intake.(boot := FoundNew(id, false)))
    case BootstrapCount => s.(intake := s.intake.(boot := AfterCount(s.intake.boot, s.totalPeers)))
    case BootstrapEnter => BootstrapEnterStep(s)
    case Started => s.(intake := s.intake.(started := true))
    case OnConnect(id) => if id in s.conns then s else s.(intake := s.intake.(locked := FoundNew(id, false)))
    case ListedPeer(id) =>
      if id == s.self || id in s.conns then s else s.(intake := s.intake.(locked := FoundNew(id, false)))
    case Count => s.(intake := s.intake.(locked := AfterCount(s.intake.locked, s.totalPeers)))
    case Enter => EnterStep(s)
    case SetKey(p, key) => SetKeyStep(s, p, key)
    case Reread(p, key) => RereadStep(s, p, key)
    case Recovered(p, key) => RecoveredStep(s, p, key)
    case SendMessage(key, env) => SubmitStep(s, key, env)
    case BanList(key, on) => BanListStep(s, key, on)
    case LookAt(id) => LookAtStep(s, id)
    case NoneFound => NoneFoundStep(s)
  }

  // ----- runs -----

  ghost predicate IsRun(ss: seq<State>, actions: seq<Action>) {
    && |ss| == |actions| + 1 && ss[0] == Start(ss[0].self)
    && forall i :: 0 <= i < |actions| ==> Enabled(ss[i], actions[i]) && ss[i + 1] == Step(ss[i], actions[i])
  }

  ghost predicate Reachable(s: State) {
    exists ss, actions :: IsRun(ss, actions) && ss[|actions|] == s
  }

  lemma StartReachable(self: PeerId)
    ensures Reachable(Start(self))
  {
    assert IsRun([Start(self)], []);
  }

  lemma StepReachable(s: State, a: Action)
    requires Reachable(s) && Enabled(s, a)
    ensures Reachable(Step(s, a))
  {
    hide Enabled, Step;
    var ss, actions :| IsRun(ss, actions) && ss[|actions|] == s;
    var ss', actions' := ss + [Step(s, a)], actions + [a];
    assert IsRun(ss', actions') by {
      assert ss'[0] == ss[0];
      forall i | 0 <= i < |actions'| ensures Enabled(ss'[i], actions'[i]) && ss'[i + 1] == Step(ss'[i], actions'[i]) {
        if i < |actions| {
          assert ss'[i] == ss[i] && ss'[i + 1] == ss[i + 1] && actions'[i] == actions[i];
        }
      }
    }
    assert ss'[|actions'|] == Step(s, a);
  }

  /** `actions`, one after the other, lead from `s` to `s'`. */
  ghost predicate Leads(s: State, actions: seq<Action>, s': State)
    decreases |actions|
  {
    if actions == [] then s' == s
    else Enabled(s, actions[0]) && Leads(Step(s, actions[0]), actions[1..], s')
  }

  lemma LeadsNowhere(s: State)
    ensures Leads(s, [], s)
  {
  }

  lemma {:induction false} LeadsReachable(s: State, actions: seq<Action>, s': State)
    requires Reachable(s) && Leads(s, actions, s')
    ensures Reachable(s')
    decreases |actions|
  {
    hide Reachable, Enabled, Step;
    if actions != [] {
      StepReachable(s, actions[0]);
      LeadsReachable(Step(s, actions[0]), actions[1..], s');
    }
  }

  lemma {:induction false} LeadsOn(s: State, actions: seq<Action>, m: State, a: Action)
    requires Leads(s, actions, m) && Enabled(m, a)
    ensures Leads(s, actions + [a], Step(m, a))
    decreases |actions|
  {
    hide Enabled, Step;
    if actions == [] {
      assert Leads(Step(s, a), [], Step(s, a));
      assert ([] + [a])[1..] == [];
    } else {
      LeadsOn(Step(s, actions[0]), actions[1..], m, a);
      assert (actions + [a])[1..] == actions[1..] + [a];
    }
  }

  /** One more action after `actions`. */
  lemma Onward(s: State, actions: seq<Action>, m: State, a: Action) returns (actions': seq<Action>, m': State)
    requires Leads(s, actions, m) && Enabled(m, a)
    ensures Leads(s, actions', m') && actions' == actions + [a] && m' == Step(m, a)
  {
    LeadsOn(s, actions, m, a);
    actions', m' := actions + [a], Step(m, a);
  }

  lemma {:induction false} LongerThanAll(keys: set<string>) returns (n: nat)
    ensures forall k :: k in keys ==> |k| < n
    decreases keys
  {
    if keys == {} {
      n := 0;
    } else {
      var k :| k in keys;
      var m := LongerThanAll(keys - {k});
      n := if |k| < m then m else |k| + 1;
    }
  }

  /** There is always a name that is not taken. */
  lemma FreshName(taken: set<string>) returns (name: string)
    ensures name !in taken && name != ""
  {
    var n := LongerThanAll(taken);
    name := seq(n + 1, i => 'a');
  }
}

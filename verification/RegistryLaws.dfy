/** What each step of the registry leaves alone, and the numbering of connections. */
module RegistryLaws {
  import opened Bytes
  import opened Envelopes
  import opened Registry

  // ----- steps that change one connection -----

  /** Of the connections, only the one at `p` has changed, into `c`. */
  ghost predicate OnlyAt(s: State, s': State, p: Place, c: Conn)
    requires HasPlace(s, p)
  {
    s'.conns == WithConn(s, p, c).conns && s'.orphans == WithConn(s, p, c).orphans
  }

  ghost predicate SameRegister(s: State, s': State) {
    && s'.self == s.self && s'.peerIds == s.peerIds && s'.totalPeers == s.totalPeers
    && s'.bannedPeer == s.bannedPeer && s'.submitted == s.submitted && s'.intake == s.intake
  }

  /** Nothing has changed but connections, lists and fates. */
  ghost predicate SameRest(s: State, s': State) {
    SameRegister(s, s') && s'.holder == s.holder && s'.strayBan == s.strayBan
  }

  lemma WithConnFrame(s: State, p: Place, c: Conn)
    requires HasPlace(s, p)
    ensures var s' := WithConn(s, p, c);
            && HasPlace(s', p) && ConnAt(s', p) == c && SameRest(s, s')
            && s'.messages == s.messages && s'.fate == s.fate
            && s'.conns.Keys == s.conns.Keys && |s'.orphans| == |s.orphans|
    ensures forall d :: WithConn(WithConn(s, p, c), p, d) == WithConn(s, p, d)
    ensures WithConn(s, p, ConnAt(s, p)) == s
  {
  }

  lemma OnlyAtTwice(s: State, m: State, s': State, p: Place, c: Conn, d: Conn)
    requires HasPlace(s, p) && OnlyAt(s, m, p, c)
    requires HasPlace(m, p) && OnlyAt(m, s', p, d)
    ensures OnlyAt(s, s', p, d)
  {
  }

  lemma OnlyAtHas(s: State, s': State, p: Place, c: Conn)
    requires HasPlace(s, p) && OnlyAt(s, s', p, c)
    ensures HasPlace(s', p) && ConnAt(s', p) == c
    ensures s'.conns.Keys == s.conns.Keys && |s'.orphans| == |s.orphans|
  {
  }

  lemma HandOverFrame(s: State, p: Place, t: Ticket)
    requires HasPlace(s, p)
    ensures var s' := HandOver(s, p, t);
            OnlyAt(s, s', p, Given(ConnAt(s, p), t)) && SameRest(s, s') && s'.messages == s.messages
  {
    hide SendFate, Given;
  }

  /** The connection has at most accepted messages. */
  predicate OnlyHanded(c: Conn, c': Conn) {
    c' == c.(handed := c'.handed)
  }

  lemma {:induction false} FlushFrame(s: State, p: Place, key: Key)
    requires HasPlace(s, p)
    ensures var s' := Flush(s, p, key);
            && OnlyAt(s, s', p, ConnAt(s', p)) && OnlyHanded(ConnAt(s, p), ConnAt(s', p)) && SameRest(s, s')
            && (forall k :: k != key ==> MessagesFor(s', k) == MessagesFor(s, k))
    decreases |MessagesFor(s, key)|
  {
    hide HandOver, WithConn, ConnAt, HasPlace;
    if MessagesFor(s, key) == [] {
      NothingChanged(s, p);
    } else {
      var m, t := Popped(s, key), MessagesFor(s, key)[0];
      var one := FlushOne(s, p, key);
      PoppedFrame(s, p, key);
      HandOverFrame(m, p, t);
      OnlyAtHas(m, one, p, Given(ConnAt(m, p), t));
      FlushFrame(one, p, key);
      OnlyAtTwice(m, one, Flush(one, p, key), p, Given(ConnAt(m, p), t), ConnAt(Flush(one, p, key), p));
      SameConnsOnlyAt(s, m, Flush(one, p, key), p, ConnAt(Flush(one, p, key), p));
    }
  }

  lemma NothingChanged(s: State, p: Place)
    requires HasPlace(s, p)
    ensures OnlyAt(s, s, p, ConnAt(s, p))
  {
  }

  lemma PoppedFrame(s: State, p: Place, key: Key)
    requires HasPlace(s, p) && MessagesFor(s, key) != []
    ensures var m := Popped(s, key);
            && m.conns == s.conns && m.orphans == s.orphans && HasPlace(m, p) && ConnAt(m, p) == ConnAt(s, p)
            && SameRest(s, m) && m.fate == s.fate
            && MessagesFor(m, key) == MessagesFor(s, key)[1..]
            && forall k :: k != key ==> MessagesFor(m, k) == MessagesFor(s, k)
  {
  }

  lemma SameConnsOnlyAt(s: State, m: State, s': State, p: Place, c: Conn)
    requires HasPlace(s, p) && m.conns == s.conns && m.orphans == s.orphans
    requires HasPlace(m, p) && OnlyAt(m, s', p, c)
    ensures OnlyAt(s, s', p, c)
  {
  }

  lemma StoreFrame(s: State, key: Key, t: Ticket)
    ensures var s' := StoreStep(s, key, t);
            && s'.conns == s.conns && s'.orphans == s.orphans && SameRest(s, s')
            && (forall k :: k != key ==> MessagesFor(s', k) == MessagesFor(s, k))
  {
  }

  lemma SetKeyFrame(s: State, p: Place, key: Key)
    requires HasPlace(s, p)
    ensures var s' := SetKeyStep(s, p, key);
            && OnlyAt(s, s', p, Keyed(ConnAt(s, p), key)) && SameRest(s, s')
            && s'.messages == s.messages && s'.fate == s.fate
  {
    hide Keyed;
  }

  /** A connection whose callback for `key` has run. */
  ghost predicate CalledBack(c: Conn, c': Conn, key: Key, banned: bool) {
    && c'.key == c.key && c'.uniqId == c.uniqId && c'.rekeyed == c.rekeyed
    && c'.callbacks == c.callbacks - multiset{key} && c'.banned == (c.banned || banned)
  }

  lemma RecoveredFrame(s: State, p: Place, key: Key)
    requires HasPlace(s, p)
    ensures var s' := RecoveredStep(s, p, key);
            && HasPlace(s', p) && OnlyAt(s, s', p, ConnAt(s', p)) && SameRest(s, s')
            && CalledBack(ConnAt(s, p), ConnAt(s', p), key, IsBanned(s, key))
            && MessagesFor(s', key) == []
            && (forall k :: k != key ==> MessagesFor(s', k) == MessagesFor(s, k))
  {
    hide Flush, WithConn, HasPlace, ConnAt;
    var m := CallbackTaken(s, p, key);
    WithConnFrame(s, p, ConnAt(s, p).(callbacks := ConnAt(s, p).callbacks - multiset{key}));
    FlushFrame(m, p, key);
    var f := Flush(m, p, key);
    OnlyAtHas(m, f, p, ConnAt(f, p));
    OnlyAtTwice(s, m, f, p, ConnAt(m, p), ConnAt(f, p));
    WithConnFrame(f, p, ConnAt(f, p).(banned := true));
    SetBanOnlyAt(s, f, p);
    assert forall k :: MessagesFor(m, k) == MessagesFor(s, k);
  }

  lemma SetBanOnlyAt(s: State, f: State, p: Place)
    requires HasPlace(s, p) && HasPlace(f, p) && OnlyAt(s, f, p, ConnAt(f, p))
    ensures var s' := SetBan(f, p, true);
            OnlyAt(s, s', p, ConnAt(f, p).(banned := true))
            && (forall k :: MessagesFor(s', k) == MessagesFor(f, k))
  {
  }

  /** A connection a lookup has looked at: it may have got a message, or a ban or unban. */
  ghost predicate LookedAt(s: State, c: Conn, c': Conn) {
    && c'.key == c.key && c'.uniqId == c.uniqId && c'.rekeyed == c.rekeyed && c'.callbacks == c.callbacks
    && c'.banned == if s.holder.Banning? && c.key == s.holder.key then s.holder.on else c.banned
  }

  lemma LookAtFrame(s: State, id: PeerId)
    requires Enabled(s, LookAt(id))
    ensures var s' := LookAtStep(s, id);
            && id in s'.conns && OnlyAt(s, s', Entered(id), s'.conns[id])
            && LookedAt(s, s.conns[id], s'.conns[id]) && SameRegister(s, s') && s'.messages == s.messages
            && s'.holder == (if s.conns[id].key == s.holder.key then Free
                             else WithLeft(s.holder, s.holder.left - {id}))
            && s'.strayBan == (s.strayBan || (s.holder.Banning? && s.conns[id].key == "" && s.holder.key == ""))
  {
    if s.conns[id].key != s.holder.key {
      NothingChanged(s, Entered(id));
    } else if s.holder.Sending? {
      FoundSending(s, id);
    } else {
      FoundBanning(s, id);
    }
    hide LookAtStep, OnlyAt, LookedAt;
  }

  lemma FoundSending(s: State, id: PeerId)
    requires Enabled(s, LookAt(id)) && s.conns[id].key == s.holder.key && s.holder.Sending?
    ensures var s' := LookAtStep(s, id);
            && id in s'.conns && OnlyAt(s, s', Entered(id), s'.conns[id]) && LookedAt(s, s.conns[id], s'.conns[id])
            && SameRegister(s, s') && s'.messages == s.messages && s'.holder.Free? && s'.strayBan == s.strayBan
  {
    hide HandOver;
    HandOverFrame(s, Entered(id), s.holder.t);
  }

  lemma FoundBanning(s: State, id: PeerId)
    requires Enabled(s, LookAt(id)) && s.conns[id].key == s.holder.key && s.holder.Banning?
    ensures var s' := LookAtStep(s, id);
            && id in s'.conns && OnlyAt(s, s', Entered(id), s'.conns[id]) && LookedAt(s, s.conns[id], s'.conns[id])
            && SameRegister(s, s') && s'.messages == s.messages && s'.holder.Free?
            && s'.strayBan == (s.strayBan || s.holder.key == "")
  {
  }

  lemma NoneFoundFrame(s: State)
    requires Enabled(s, NoneFound)
    ensures var s' := NoneFoundStep(s);
            && s'.conns == s.conns && s'.orphans == s.orphans && SameRegister(s, s') && s'.strayBan == s.strayBan
            && (forall k :: k != s.holder.key ==> MessagesFor(s', k) == MessagesFor(s, k))
            && ((s.holder.Sending? && s.holder.second) || MessagesFor(s', s.holder.key) == MessagesFor(s, s.holder.key))
            && s'.holder == if s.holder.Sending? && !s.holder.second
                            then Sending(s.holder.key, s.holder.t, true, s.conns.Keys) else Free
  {
    hide StoreStep;
    if s.holder.Sending? && s.holder.second {
      StoreFrame(s, s.holder.key, s.holder.t);
    }
  }

  // ----- registrations -----

  /** A connection that has just been made. */
  predicate IsFresh(c: Conn) {
    c == NewConn(c.uniqId)
  }

  /** At most new connections, and nothing else the messages depend on. */
  ghost predicate OnlyMoreConns(s: State, s': State) {
    && s'.messages == s.messages && s'.holder == s.holder && s'.fate == s.fate
    && s'.submitted == s.submitted && s'.bannedPeer == s.bannedPeer && s'.strayBan == s.strayBan
    && s'.orphans == s.orphans && s.conns.Keys <= s'.conns.Keys
    && (forall id :: id in s.conns ==> s'.conns[id] == s.conns[id])
    && (forall id :: id in s'.conns && id !in s.conns ==> IsFresh(s'.conns[id]))
  }

  /** A connection was displaced, and nothing else the messages depend on. */
  ghost predicate Displaces(s: State, s': State, id: PeerId) {
    && s'.messages == s.messages && s'.holder == s.holder && s'.fate == s.fate
    && s'.submitted == s.submitted && s'.bannedPeer == s.bannedPeer && s'.strayBan == s.strayBan
    && id in s.conns && s'.orphans == s.orphans + [s.conns[id]] && s'.conns.Keys == s.conns.Keys
    && (forall i :: i in s.conns && i != id ==> s'.conns[i] == s.conns[i]) && IsFresh(s'.conns[id])
  }

  predicate IsConnecting(a: Action) {
    || a.Bootstrap? || a.BootstrapCount? || a.BootstrapEnter? || a.Started?
    || a.OnConnect? || a.ListedPeer? || a.Count? || a.Enter?
  }

  predicate IsLate(r: Registration) {
    !r.Nobody? && r.late
  }

  /** Unless it is late, a registration knows that its peer is new, and what the counter is. */
  predicate InTime(s: State, r: Registration) {
    !r.Nobody? && !r.late ==> r.id !in s.conns && (r.Counted? ==> r.number == s.totalPeers)
  }

  predicate Registering(s: State) {
    && InTime(s, s.intake.boot) && InTime(s, s.intake.locked)
    && (s.intake.started ==> s.intake.boot.Nobody?)
    && (!s.intake.locked.Nobody? ==> s.holder.Free?)
    && (s.orphans != [] ==> s.intake.overtaken)
  }

  /** Nothing has been asked of the service yet. */
  ghost predicate Untouched(s: State) {
    && s.submitted == [] && s.bannedPeer == map[] && s.holder.Free?
    && (forall p :: HasPlace(s, p) ==> !ConnAt(s, p).banned)
  }

  /** While a connection can still be displaced, the service is untouched. */
  ghost predicate Early(s: State) {
    !s.intake.started || IsLate(s.intake.locked) ==> Untouched(s)
  }

  /** What an entry makes of the connections. */
  lemma AddConnFrame(s: State, id: PeerId, n: uint32, intake: Intake)
    ensures var s' := AddConn(s, id, n).(intake := intake);
            if id in s.conns then Displaces(s, s', id) else OnlyMoreConns(s, s')
    ensures AddConn(s, id, n).intake == s.intake
  {
  }

  /** The steps of a registration that are not its entry. */
  predicate OnlyIntake(a: Action) {
    IsConnecting(a) && !a.Enter? && !a.BootstrapEnter?
  }

  lemma OnlyIntakeFrame(s: State, a: Action)
    requires OnlyIntake(a) && Enabled(s, a)
    ensures Step(s, a) == s.(intake := Step(s, a).intake)
    ensures Step(s, a).intake.overtaken == s.intake.overtaken
  {
  }

  /** The registration that enters its peer. */
  function Entering(s: State, a: Action): Registration {
    if a.Enter? then s.intake.locked else s.intake.boot
  }

  /** A registration only adds a connection, or displaces one while the service is untouched. */
  lemma ConnectingFrame(s: State, a: Action)
    requires Registering(s) && Early(s) && IsConnecting(a) && Enabled(s, a)
    ensures OnlyMoreConns(s, Step(s, a))
            || (Untouched(s) && !OnlyIntake(a) && Entering(s, a).late && Displaces(s, Step(s, a), Entering(s, a).id))
  {
    hide AddConn, Untouched;
    if OnlyIntake(a) {
      OnlyIntakeFrame(s, a);
      hide Step;
    } else {
      var r := Entering(s, a);
      AddConnFrame(s, r.id, r.number, Step(s, a).intake);
    }
  }

  lemma ConnectingRegisters(s: State, a: Action)
    requires Registering(s) && IsConnecting(a) && Enabled(s, a)
    ensures Registering(Step(s, a)) && (s.intake.overtaken ==> Step(s, a).intake.overtaken)
  {
    hide EnterStep, BootstrapEnterStep;
    if a.Enter? {
      EnterRegisters(s);
    } else if a.BootstrapEnter? {
      BootstrapEnterRegisters(s);
    } else {
      IntakeRegisters(s, a);
      hide Step;
    }
  }

  lemma IntakeRegisters(s: State, a: Action)
    requires Registering(s) && OnlyIntake(a) && Enabled(s, a)
    ensures Registering(Step(s, a)) && (s.intake.overtaken ==> Step(s, a).intake.overtaken)
  {
    OnlyIntakeFrame(s, a);
    match a
    case Bootstrap(_) =>
    case BootstrapCount =>
    case Started =>
    case OnConnect(_) =>
    case ListedPeer(_) =>
    case Count =>
  }

  lemma EnterRegisters(s: State)
    requires Registering(s) && Enabled(s, Enter)
    ensures Registering(EnterStep(s)) && (s.intake.overtaken ==> EnterStep(s).intake.overtaken)
  {
  }

  lemma BootstrapEnterRegisters(s: State)
    requires Registering(s) && Enabled(s, BootstrapEnter)
    ensures Registering(BootstrapEnterStep(s)) && (s.intake.overtaken ==> BootstrapEnterStep(s).intake.overtaken)
  {
  }

  // ----- numbers and connections correspond one to one -----

  /** Number `u` is given out exactly if it is below the number of connections, and to the connection it names. */
  predicate NumberOk(s: State, u: nat) {
    && (u in s.peerIds <==> u < |s.conns|)
    && (u in s.peerIds ==> s.peerIds[u] in s.conns && s.conns[s.peerIds[u]].uniqId == u)
  }

  /** The connection with `id` is the one its number names. */
  predicate ConnOk(s: State, id: PeerId) {
    id in s.conns ==> s.conns[id].uniqId in s.peerIds && s.peerIds[s.conns[id].uniqId] == id
  }

  ghost predicate Bijective(s: State) {
    && (forall u: nat :: NumberOk(s, u))
    && (forall id: PeerId :: ConnOk(s, id))
  }

  ghost predicate Numbered(s: State) {
    && s.totalPeers == |s.conns| % TWO_32
    && (|s.conns| <= TWO_32 ==> Bijective(s))
  }

  lemma SuccessorRemainder(n: nat, m: nat)
    requires m > 1
    ensures (n % m + 1) % m == (n + 1) % m
  {
    var q, r := n / m, n % m;
    assert n == m * q + r;
    if r + 1 < m {
      RemainderUnique(n + 1, m, q, r + 1);
      SmallRemainder(r + 1, m);
    } else {
      assert n + 1 == m * (q + 1);
      RemainderUnique(n + 1, m, q + 1, 0);
      RemainderUnique(r + 1, m, 1, 0);
    }
  }

  lemma OneMore(s: State, id: PeerId)
    requires id !in s.conns
    ensures |AddConn(s, id, s.totalPeers).conns| == |s.conns| + 1
  {
    var conns' := AddConn(s, id, s.totalPeers).conns;
    assert conns'.Keys == s.conns.Keys + {id};
    assert |conns'| == |conns'.Keys| && |s.conns| == |s.conns.Keys|;
  }

  lemma AddConnBijective(s: State, id: PeerId)
    requires Bijective(s) && id !in s.conns && s.totalPeers == |s.conns|
    ensures Bijective(AddConn(s, id, s.totalPeers))
  {
    var s' := AddConn(s, id, s.totalPeers);
    OneMore(s, id);
    forall u: nat ensures NumberOk(s', u) {
      assert NumberOk(s, u);
    }
    forall i: PeerId ensures ConnOk(s', i) {
      assert ConnOk(s, i) && NumberOk(s, s.totalPeers);
    }
  }

  lemma AddConnNumbered(s: State, id: PeerId)
    requires Numbered(s) && id !in s.conns
    ensures Numbered(AddConn(s, id, s.totalPeers))
  {
    hide Bijective;
    OneMore(s, id);
    SuccessorRemainder(|s.conns|, TWO_32);
    if |s.conns| < TWO_32 {
      SmallRemainder(|s.conns|, TWO_32);
      AddConnBijective(s, id);
    }
  }

  lemma ConnectingNumbered(s: State, a: Action)
    requires Numbered(s) && Registering(s) && IsConnecting(a) && Enabled(s, a) && !Step(s, a).intake.overtaken
    ensures Numbered(Step(s, a))
  {
    hide Numbered, AddConn;
    if OnlyIntake(a) {
      OnlyIntakeFrame(s, a);
      hide Step;
      SameConnsNumbered(s, Step(s, a));
    } else {
      var r := Entering(s, a);
      AddConnNumbered(s, r.id);
      SameConnsNumbered(AddConn(s, r.id, s.totalPeers), Step(s, a));
    }
  }

  lemma SameConnsNumbered(s: State, s': State)
    requires Numbered(s) && SameNumbers(s, s')
    ensures Numbered(s')
  {
    assert |s'.conns| == |s'.conns.Keys| && |s.conns| == |s.conns.Keys|;
    if |s.conns| <= TWO_32 {
      forall u: nat ensures NumberOk(s', u) {
        assert NumberOk(s, u);
      }
      forall id: PeerId ensures ConnOk(s', id) {
        assert ConnOk(s, id);
      }
    }
  }

  ghost predicate SameNumbers(s: State, s': State) {
    && s'.conns.Keys == s.conns.Keys && s'.peerIds == s.peerIds && s'.totalPeers == s.totalPeers
    && forall id :: id in s.conns ==> s'.conns[id].uniqId == s.conns[id].uniqId
  }

  /** Registrations, and what they depend on, are the same. */
  ghost predicate SameRegistrations(s: State, s': State) {
    && s'.conns.Keys == s.conns.Keys && s'.totalPeers == s.totalPeers && s'.intake == s.intake
    && |s'.orphans| == |s.orphans| && s'.peerIds == s.peerIds
    && (forall id :: id in s.conns ==> s'.conns[id].uniqId == s.conns[id].uniqId)
    && (!s.intake.locked.Nobody? ==> s'.holder == s.holder)
  }

  lemma OneSameRegistrations(s: State, s': State, p: Place)
    requires HasPlace(s, p) && HasPlace(s', p) && OnlyAt(s, s', p, ConnAt(s', p))
    requires ConnAt(s', p).uniqId == ConnAt(s, p).uniqId && SameRegister(s, s')
    requires !s.intake.locked.Nobody? ==> s'.holder == s.holder
    ensures SameRegistrations(s, s')
  {
  }

  lemma OtherStepsSameRegistrations(s: State, a: Action)
    requires Registering(s) && Enabled(s, a) && !IsConnecting(a)
    ensures SameRegistrations(s, Step(s, a))
  {
    hide RecoveredStep, LookAtStep, NoneFoundStep, SetKeyStep, RereadStep, OnlyAt, HasPlace, ConnAt;
    var s' := Step(s, a);
    match a
    case Recovered(p, key) =>
      RecoveredFrame(s, p, key);
      OneSameRegistrations(s, s', p);
    case LookAt(id) =>
      PlaceOf(s, id);
      LookAtFrame(s, id);
      PlaceOf(s', id);
      OneSameRegistrations(s, s', Entered(id));
    case NoneFound => NoneFoundFrame(s);
    case SetKey(p, key) =>
      SetKeyFrame(s, p, key);
      OnlyAtHas(s, s', p, Keyed(ConnAt(s, p), key));
      OneSameRegistrations(s, s', p);
    case Reread(p, key) =>
      RereadFrame(s, p, key);
      OneSameRegistrations(s, s', p);
    case _ =>
  }

  lemma PlaceOf(s: State, id: PeerId)
    ensures HasPlace(s, Entered(id)) <==> id in s.conns
    ensures id in s.conns ==> ConnAt(s, Entered(id)) == s.conns[id]
  {
  }

  lemma RereadFrame(s: State, p: Place, key: Key)
    requires HasPlace(s, p)
    ensures var s' := RereadStep(s, p, key);
            && HasPlace(s', p) && OnlyAt(s, s', p, ConnAt(s', p)) && SameRest(s, s')
            && s'.messages == s.messages && s'.fate == s.fate
            && ConnAt(s', p) == ConnAt(s, p).(callbacks := ConnAt(s', p).callbacks)
            && ConnAt(s', p).callbacks == ConnAt(s, p).callbacks - multiset{key} + multiset{ConnAt(s, p).key}
  {
  }

  lemma StepNumbered(s: State, a: Action)
    requires Numbered(s) && Registering(s) && Enabled(s, a) && !Step(s, a).intake.overtaken
    ensures Numbered(Step(s, a))
  {
    if IsConnecting(a) {
      ConnectingNumbered(s, a);
    } else {
      OtherStepsSameRegistrations(s, a);
      hide Step;
      SameConnsNumbered(s, Step(s, a));
    }
  }

  lemma StepRegisters(s: State, a: Action)
    requires Registering(s) && Enabled(s, a)
    ensures Registering(Step(s, a))
    ensures s.intake.overtaken ==> Step(s, a).intake.overtaken
  {
    if IsConnecting(a) {
      ConnectingRegisters(s, a);
    } else {
      OtherStepsSameRegistrations(s, a);
      hide Step;
    }
  }

  // ----- every step keeps the service untouched until it is called -----

  lemma OneUntouched(s: State, s': State, p: Place)
    requires Untouched(s) && HasPlace(s, p) && HasPlace(s', p) && OnlyAt(s, s', p, ConnAt(s', p))
    requires SameRest(s, s') && !ConnAt(s', p).banned
    ensures Untouched(s')
  {
    forall q | HasPlace(s', q) ensures !ConnAt(s', q).banned {
      assert HasPlace(s, q);
    }
  }

  lemma MoreUntouched(s: State, s': State)
    requires Untouched(s) && OnlyMoreConns(s, s')
    ensures Untouched(s')
  {
    forall q | HasPlace(s', q) ensures !ConnAt(s', q).banned {
      if q.Entered? && q.id in s.conns {
        assert HasPlace(s, q);
      } else if q.Orphaned? {
        assert HasPlace(s, q);
      }
    }
  }

  lemma DisplacedUntouched(s: State, s': State, id: PeerId)
    requires Untouched(s) && Displaces(s, s', id)
    ensures Untouched(s')
  {
    forall q | HasPlace(s', q) ensures !ConnAt(s', q).banned {
      if q.Entered? && q.id != id {
        assert HasPlace(s, q) && s'.conns[q.id] == s.conns[q.id];
      } else if q.Orphaned? && q.i < |s.orphans| {
        assert HasPlace(s, q);
      } else if q.Orphaned? {
        assert HasPlace(s, Entered(id));
      }
    }
  }

  /** It becomes late or stays early only while nothing has been asked of the service. */
  lemma StepEarlier(s: State, a: Action)
    requires Registering(s) && Enabled(s, a)
    ensures !Step(s, a).intake.started || IsLate(Step(s, a).intake.locked) ==>
              !s.intake.started || IsLate(s.intake.locked)
  {
    if !IsConnecting(a) {
      OtherStepsSameRegistrations(s, a);
      hide Step;
    }
  }

  lemma StepEarly(s: State, a: Action)
    requires Early(s) && Registering(s) && Enabled(s, a)
    ensures Early(Step(s, a))
  {
    StepEarlier(s, a);
    hide Untouched, RecoveredStep, LookAtStep, NoneFoundStep, SetKeyStep, RereadStep, HasPlace, ConnAt, OnlyAt;
    var s' := Step(s, a);
    if !s'.intake.started || IsLate(s'.intake.locked) {
      if IsConnecting(a) {
        ConnectingFrame(s, a);
        hide Step;
        if OnlyMoreConns(s, s') {
          MoreUntouched(s, s');
        } else {
          DisplacedUntouched(s, s', Entering(s, a).id);
        }
      } else {
        OthersUntouched(s, a);
      }
    }
  }

  lemma OthersUntouched(s: State, a: Action)
    requires Untouched(s) && Enabled(s, a) && !IsConnecting(a) && (!s.intake.started || !s.intake.locked.Nobody?)
    ensures Untouched(Step(s, a))
  {
    hide RecoveredStep, SetKeyStep, RereadStep, OnlyAt;
    match a
    case SetKey(p, key) =>
      SetKeyFrame(s, p, key);
      OnlyAtHas(s, Step(s, a), p, Keyed(ConnAt(s, p), key));
      OneUntouched(s, Step(s, a), p);
    case Reread(p, key) =>
      RereadFrame(s, p, key);
      OneUntouched(s, Step(s, a), p);
    case Recovered(p, key) =>
      RecoveredFrame(s, p, key);
      OneUntouched(s, Step(s, a), p);
    case _ => assert false;
  }
}

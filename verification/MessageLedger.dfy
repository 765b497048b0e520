/** Every message given to SendMessageToPeer is in exactly one place. */
module MessageLedger {
  import opened Envelopes
  import opened Registry
  import opened RegistryLaws
  import opened PostponedMessages

  /** `t` is the ticket of a message submitted for `key`. */
  predicate SubmittedFor(s: State, t: Ticket, key: Key) {
    t.no < |s.submitted| && s.submitted[t.no] == Submission(key, t.env)
  }

  function FateOf(s: State, no: nat): Fate {
    if no in s.fate then s.fate[no] else IgnoredEmpty
  }

  function HandedTo(s: State, p: Place): seq<Ticket> {
    if HasPlace(s, p) then ConnAt(s, p).handed else []
  }

  /** The connection carries `key`, as far as its key was never replaced. */
  predicate Carries(c: Conn, key: Key) {
    key != "" && !c.rekeyed ==> c.key == key
  }

  /** A message in the list for `key` is postponed, was submitted for `key`, and is not on the move. */
  predicate PostponedOk(s: State, loose: set<nat>, key: Key, t: Ticket) {
    t in MessagesFor(s, key) ==>
      SubmittedFor(s, t, key) && FateOf(s, t.no) == Postponed && t.no !in loose
  }

  /** A message handed to a connection was submitted for the key it carries, and is not on the move. */
  predicate HandedOk(s: State, loose: set<nat>, p: Place, t: Ticket) {
    t in HandedTo(s, p) ==>
      && t.no < |s.submitted| && s.submitted[t.no].env == t.env && t.no !in loose
      && FateOf(s, t.no) == Handed(p)
      && HasPlace(s, p) && Carries(ConnAt(s, p), s.submitted[t.no].key)
  }

  /** A message is where its fate says. */
  predicate FateOk(s: State, loose: set<nat>, no: nat) {
    && (no in s.fate <==> no < |s.submitted|)
    && (no in s.fate && no !in loose ==>
          var t := Ticket(no, s.submitted[no].env);
          match s.fate[no]
          case InFlight => false
          case Postponed => t in MessagesFor(s, s.submitted[no].key)
          case Handed(p) => t in HandedTo(s, p)
          case RefusedBanned => true
          case IgnoredEmpty => t.env.data == None)
  }

  predicate Increasing(ts: seq<Ticket>) {
    forall i, j :: 0 <= i < j < |ts| ==> ts[i].no < ts[j].no
  }

  predicate NoRepeats(ts: seq<Ticket>) {
    forall i, j :: 0 <= i < j < |ts| ==> ts[i] != ts[j]
  }

  /** All messages but the `loose` ones, which are on the move, are in their one place. */
  ghost predicate Placed(s: State, loose: set<nat>) {
    && (forall key, t :: PostponedOk(s, loose, key, t))
    && (forall p, t :: HandedOk(s, loose, p, t))
    && (forall no: nat :: FateOk(s, loose, no))
    && (forall key :: Increasing(MessagesFor(s, key)))
    && (forall p :: NoRepeats(HandedTo(s, p)))
  }

  /** The number on the move: that of the message whose call holds the lock. */
  function Loose(s: State): set<nat> {
    if s.holder.Sending? then {s.holder.t.no} else {}
  }

  ghost predicate Ledger(s: State) {
    && Placed(s, Loose(s))
    && (s.holder.Sending? ==>
          && s.holder.t.no == |s.submitted| - 1 && SubmittedFor(s, s.holder.t, s.holder.key)
          && FateOf(s, s.holder.t.no) == InFlight)
  }

  // ----- moving one message -----

  lemma HandOverPlaces(s: State, loose: set<nat>, p: Place, t: Ticket, key: Key)
    requires Placed(s, loose) && HasPlace(s, p) && t.no in loose && SubmittedFor(s, t, key)
    requires Carries(ConnAt(s, p), key)
    ensures Placed(HandOver(s, p, t), loose - {t.no})
  {
    var s', loose' := HandOver(s, p, t), loose - {t.no};
    HandOverGives(s, p, t);
    hide HandOver, HandedTo, MessagesFor, Carries, Increasing, NoRepeats;
    forall k, u ensures PostponedOk(s', loose', k, u) {
      assert PostponedOk(s, loose, k, u);
    }
    forall q, u ensures HandedOk(s', loose', q, u) {
      assert HandedOk(s, loose, q, u);
    }
    forall no: nat ensures FateOk(s', loose', no) {
      assert FateOk(s, loose, no);
    }
    forall k ensures Increasing(MessagesFor(s', k)) {
      assert Increasing(MessagesFor(s, k));
    }
    forall q ensures NoRepeats(HandedTo(s', q)) {
      assert NoRepeats(HandedTo(s, q)) && HandedOk(s, loose, q, t);
      OneMore(HandedTo(s, q), t);
    }
  }

  lemma OneMore(ts: seq<Ticket>, t: Ticket)
    requires NoRepeats(ts)
    ensures t !in ts ==> NoRepeats(ts + [t])
    ensures ts + [] == ts
  {
  }

  /** Handing over one message. */
  lemma HandOverGives(s: State, p: Place, t: Ticket)
    requires HasPlace(s, p)
    ensures var s' := HandOver(s, p, t);
            && s'.submitted == s.submitted && s'.fate == s.fate[t.no := SendFate(ConnAt(s, p), p, t)]
            && (forall k :: MessagesFor(s', k) == MessagesFor(s, k))
            && (forall q :: HasPlace(s', q) <==> HasPlace(s, q))
            && HandedTo(s', p) == HandedTo(s, p) + (if SendFate(ConnAt(s, p), p, t) == Handed(p) then [t] else [])
            && (forall q :: q != p ==> HandedTo(s', q) == HandedTo(s, q))
            && (forall q, k :: HasPlace(s, q) ==> (Carries(ConnAt(s', q), k) <==> Carries(ConnAt(s, q), k)))
  {
  }

  /** The first postponed message is taken off its list. */
  lemma PopPlaces(s: State, key: Key)
    requires Placed(s, {}) && MessagesFor(s, key) != []
    ensures Placed(Popped(s, key), {MessagesFor(s, key)[0].no}) && SubmittedFor(s, MessagesFor(s, key)[0], key)
  {
    var ts := MessagesFor(s, key);
    var s', loose := Popped(s, key), {ts[0].no};
    assert PostponedOk(s, {}, key, ts[0]);
    assert Increasing(ts) && ts == [ts[0]] + ts[1..];
    assert forall k :: MessagesFor(s', k) == if k == key then ts[1..] else MessagesFor(s, k);
    assert forall q :: HandedTo(s', q) == HandedTo(s, q);
    assert forall q :: HasPlace(s, q) <==> HasPlace(s', q);
    assert forall q :: HasPlace(s, q) ==> ConnAt(s', q) == ConnAt(s, q);
    hide HandedTo, MessagesFor, Carries, ConnAt, HasPlace;
    forall k, u ensures PostponedOk(s', loose, k, u) {
      assert PostponedOk(s, {}, k, u);
    }
    forall q, u ensures HandedOk(s', loose, q, u) {
      assert HandedOk(s, {}, q, u);
    }
    forall no: nat ensures FateOk(s', loose, no) {
      assert FateOk(s, {}, no);
    }
    forall k ensures Increasing(MessagesFor(s', k)) {
      assert Increasing(MessagesFor(s, k));
    }
  }

  lemma {:induction false} FlushPlaces(s: State, p: Place, key: Key)
    requires Placed(s, {}) && HasPlace(s, p) && Carries(ConnAt(s, p), key)
    ensures Placed(Flush(s, p, key), {})
    decreases |MessagesFor(s, key)|
  {
    hide Placed, SubmittedFor, HandOver, HasPlace, ConnAt, Carries;
    if MessagesFor(s, key) != [] {
      var m, t := Popped(s, key), MessagesFor(s, key)[0];
      PopPlaces(s, key);
      PoppedFrame(s, p, key);
      SameSubmitted(s, m, t, key);
      HandOverPlaces(m, {t.no}, p, t, key);
      assert {t.no} - {t.no} == {};
      HandOverGives(m, p, t);
      HandOverFrame(m, p, t);
      FlushPlaces(FlushOne(s, p, key), p, key);
    }
  }

  lemma SameSubmitted(s: State, s': State, t: Ticket, key: Key)
    requires s'.submitted == s.submitted
    ensures SubmittedFor(s', t, key) == SubmittedFor(s, t, key)
  {
  }

  /** The connection still carries the keys it did. */
  predicate KeyKept(c: Conn, c': Conn) {
    !c'.rekeyed ==> !c.rekeyed && (c.key == "" || c'.key == c.key)
  }

  /** Nothing the ledger is about has changed; keys may have been set where there were none, or replaced. */
  ghost predicate SameLists(s: State, s': State) {
    && s'.submitted == s.submitted && s'.fate == s.fate
    && (forall key :: MessagesFor(s', key) == MessagesFor(s, key))
    && (forall p :: HandedTo(s', p) == HandedTo(s, p))
    && (forall p :: HasPlace(s, p) ==> HasPlace(s', p) && KeyKept(ConnAt(s, p), ConnAt(s', p)))
  }

  lemma SameListsPlaced(s: State, s': State, loose: set<nat>)
    requires Placed(s, loose) && SameLists(s, s')
    ensures Placed(s', loose)
  {
    forall k, u ensures PostponedOk(s', loose, k, u) {
      assert PostponedOk(s, loose, k, u);
    }
    forall q, u ensures HandedOk(s', loose, q, u) {
      assert HandedOk(s, loose, q, u);
    }
    forall no: nat ensures FateOk(s', loose, no) {
      assert FateOk(s, loose, no);
    }
    forall k ensures Increasing(MessagesFor(s', k)) {
      assert Increasing(MessagesFor(s, k));
    }
    forall q ensures NoRepeats(HandedTo(s', q)) {
      assert NoRepeats(HandedTo(s, q));
    }
  }

  /** One connection has changed in what the ledger is not about. */
  lemma OneSameLists(s: State, s': State, p: Place, c: Conn)
    requires HasPlace(s, p) && OnlyAt(s, s', p, c) && s'.messages == s.messages && s'.fate == s.fate
    requires s'.submitted == s.submitted && c.handed == ConnAt(s, p).handed && KeyKept(ConnAt(s, p), c)
    ensures SameLists(s, s')
  {
  }

  // ----- the steps -----

  lemma MoreLedger(s: State, s': State)
    requires Ledger(s) && OnlyMoreConns(s, s')
    ensures Ledger(s')
  {
    hide Placed;
    SameListsPlaced(s, s', Loose(s));
  }

  /** Before anything was submitted there is nothing to be lost. */
  lemma UntouchedHanded(s: State)
    requires Ledger(s) && Untouched(s)
    ensures s.fate == map[] && (forall key :: MessagesFor(s, key) == []) && forall p :: HandedTo(s, p) == []
  {
    forall key ensures MessagesFor(s, key) == [] {
      assert MessagesFor(s, key) == [] || PostponedOk(s, {}, key, MessagesFor(s, key)[0]);
    }
    forall p ensures HandedTo(s, p) == [] {
      assert HandedTo(s, p) == [] || HandedOk(s, {}, p, HandedTo(s, p)[0]);
    }
    forall no: nat ensures no !in s.fate {
      assert FateOk(s, {}, no);
    }
  }

  lemma NothingPlaced(s: State)
    requires s.submitted == [] && s.fate == map[]
    requires (forall key :: MessagesFor(s, key) == []) && forall p :: HandedTo(s, p) == []
    ensures Placed(s, {})
  {
  }

  lemma DisplacedLedger(s: State, s': State, id: PeerId)
    requires Ledger(s) && Untouched(s) && Displaces(s, s', id)
    ensures Ledger(s')
  {
    UntouchedHanded(s);
    assert forall key :: MessagesFor(s', key) == MessagesFor(s, key);
    forall p ensures HandedTo(s', p) == [] {
      if p.Orphaned? && p.i == |s.orphans| {
        assert HandedTo(s, Entered(id)) == [];
      } else {
        assert HandedTo(s, p) == [];
      }
    }
    NothingPlaced(s');
  }

  lemma SetKeyLedger(s: State, p: Place, key: Key)
    requires Ledger(s) && Enabled(s, SetKey(p, key))
    ensures Ledger(SetKeyStep(s, p, key))
  {
    hide Placed;
    SetKeyFrame(s, p, key);
    OneSameLists(s, SetKeyStep(s, p, key), p, Keyed(ConnAt(s, p), key));
    SameListsPlaced(s, SetKeyStep(s, p, key), Loose(s));
  }

  lemma RereadLedger(s: State, p: Place, key: Key)
    requires Ledger(s) && Enabled(s, Reread(p, key))
    ensures Ledger(RereadStep(s, p, key))
  {
    hide Placed;
    RereadFrame(s, p, key);
    OneSameLists(s, RereadStep(s, p, key), p, ConnAt(RereadStep(s, p, key), p));
    SameListsPlaced(s, RereadStep(s, p, key), Loose(s));
  }

  lemma SetBanPlaces(s: State, p: Place, on: bool)
    requires Placed(s, {}) && HasPlace(s, p)
    ensures Placed(SetBan(s, p, on), {}) && SameRest(s, SetBan(s, p, on))
  {
    hide Placed;
    WithConnFrame(s, p, ConnAt(s, p).(banned := on));
    OneSameLists(s, SetBan(s, p, on), p, ConnAt(s, p).(banned := on));
    SameListsPlaced(s, SetBan(s, p, on), {});
  }

  lemma RecoveredLedger(s: State, p: Place, key: Key)
    requires Ledger(s) && Enabled(s, Recovered(p, key)) && CallbacksOk(ConnAt(s, p))
    ensures Ledger(RecoveredStep(s, p, key))
  {
    hide Placed, OnlyAt, SameLists;
    var m, c := CallbackTaken(s, p, key), ConnAt(s, p);
    var taken := c.(callbacks := c.callbacks - multiset{key});
    WithConnFrame(s, p, taken);
    assert OnlyAt(s, m, p, taken) by {
      TakenOnlyAt(s, p, key);
    }
    OneSameLists(s, m, p, taken);
    SameListsPlaced(s, m, {});
    FlushPlaces(m, p, key);
    FlushFrame(m, p, key);
    var f := Flush(m, p, key);
    hide Flush, SetBan, CallbackTaken;
    if IsBanned(f, key) {
      SetBanPlaces(f, p, true);
    }
  }

  lemma TakenOnlyAt(s: State, p: Place, key: Key)
    requires HasPlace(s, p)
    ensures OnlyAt(s, CallbackTaken(s, p, key), p, ConnAt(s, p).(callbacks := ConnAt(s, p).callbacks - multiset{key}))
  {
  }

  lemma SubmitLedger(s: State, key: Key, env: Envelope)
    requires Ledger(s) && s.holder.Free?
    ensures Ledger(SubmitStep(s, key, env))
  {
    var s', no := SubmitStep(s, key, env), |s.submitted|;
    var loose := {no};
    assert FateOk(s, {}, no);
    forall k, u ensures PostponedOk(s', loose, k, u) {
      assert PostponedOk(s, {}, k, u);
    }
    forall q, u ensures HandedOk(s', loose, q, u) {
      assert HandedOk(s, {}, q, u);
    }
    forall n: nat ensures FateOk(s', loose, n) {
      assert FateOk(s, {}, n);
    }
    forall k ensures Increasing(MessagesFor(s', k)) {
      assert Increasing(MessagesFor(s, k));
    }
    forall q ensures NoRepeats(HandedTo(s', q)) {
      assert NoRepeats(HandedTo(s, q));
    }
  }

  lemma PostponePlaces(s: State, key: Key, t: Ticket)
    requires Placed(s, {t.no}) && SubmittedFor(s, t, key) && t.no == |s.submitted| - 1
    ensures Placed(s.(messages := s.messages[key := MessagesFor(s, key) + [t]], fate := s.fate[t.no := Postponed]), {})
  {
    var s' := s.(messages := s.messages[key := MessagesFor(s, key) + [t]], fate := s.fate[t.no := Postponed]);
    assert forall k :: k != key ==> MessagesFor(s', k) == MessagesFor(s, k);
    assert MessagesFor(s', key) == MessagesFor(s, key) + [t];
    assert forall q :: HandedTo(s', q) == HandedTo(s, q);
    forall k, u ensures PostponedOk(s', {}, k, u) {
      assert PostponedOk(s, {t.no}, k, u);
    }
    forall q, u ensures HandedOk(s', {}, q, u) {
      assert HandedOk(s, {t.no}, q, u);
    }
    forall no: nat ensures FateOk(s', {}, no) {
      assert FateOk(s, {t.no}, no);
    }
    AppendIncreasing(s, key, t);
  }

  lemma AppendIncreasing(s: State, key: Key, t: Ticket)
    requires Placed(s, {t.no}) && t.no == |s.submitted| - 1
    ensures Increasing(MessagesFor(s, key) + [t])
  {
    assert Increasing(MessagesFor(s, key));
    forall i | 0 <= i < |MessagesFor(s, key)| ensures MessagesFor(s, key)[i].no < t.no {
      assert PostponedOk(s, {t.no}, key, MessagesFor(s, key)[i]);
    }
  }

  lemma RefusePlaces(s: State, t: Ticket)
    requires Placed(s, {t.no}) && t.no < |s.submitted|
    ensures Placed(s.(fate := s.fate[t.no := RefusedBanned]), {})
  {
    var s' := s.(fate := s.fate[t.no := RefusedBanned]);
    assert forall k :: MessagesFor(s', k) == MessagesFor(s, k);
    assert forall q :: HandedTo(s', q) == HandedTo(s, q);
    forall k, u ensures PostponedOk(s', {}, k, u) {
      assert PostponedOk(s, {t.no}, k, u);
    }
    forall q, u ensures HandedOk(s', {}, q, u) {
      assert HandedOk(s, {t.no}, q, u);
    }
    forall no: nat ensures FateOk(s', {}, no) {
      assert FateOk(s, {t.no}, no);
    }
  }

  /** A message is postponed, or refused because its key is banned. */
  lemma StorePlaces(s: State, key: Key, t: Ticket)
    requires Placed(s, {t.no}) && SubmittedFor(s, t, key) && t.no == |s.submitted| - 1
    ensures Placed(StoreStep(s, key, t), {})
  {
    hide Placed;
    if IsBanned(s, key) {
      RefusePlaces(s, t);
    } else {
      PostponePlaces(s, key, t);
    }
  }

  lemma LookAtLedger(s: State, id: PeerId)
    requires Ledger(s) && Enabled(s, LookAt(id))
    ensures Ledger(LookAtStep(s, id))
  {
    hide Placed, HandOver, SetBan;
    var s' := LookAtStep(s, id);
    if s.conns[id].key != s.holder.key {
      SameListsPlaced(s, s', Loose(s));
    } else if s.holder.Sending? {
      var t := s.holder.t;
      HandOverPlaces(s, {t.no}, Entered(id), t, s.holder.key);
      HandOverFrame(s, Entered(id), t);
      assert {t.no} - {t.no} == {};
      FreedPlaced(HandOver(s, Entered(id), t), s', {});
    } else {
      SetBanPlaces(s, Entered(id), s.holder.on);
      FreedPlaced(SetBan(s, Entered(id), s.holder.on), s', {});
    }
  }

  lemma FreedPlaced(s: State, s': State, loose: set<nat>)
    requires Placed(s, loose) && s' == s.(holder := s'.holder, strayBan := s'.strayBan)
    ensures Placed(s', loose)
  {
    hide Placed;
    SameListsPlaced(s, s', loose);
  }

  lemma NoneFoundLedger(s: State)
    requires Ledger(s) && Enabled(s, NoneFound)
    ensures Ledger(NoneFoundStep(s))
  {
    hide Placed;
    var s' := NoneFoundStep(s);
    if s.holder.Sending? && s.holder.second {
      StorePlaces(s, s.holder.key, s.holder.t);
      hide StoreStep;
      SameListsPlaced(StoreStep(s, s.holder.key, s.holder.t), s', {});
    } else {
      SameListsPlaced(s, s', Loose(s));
    }
  }

  lemma BanListLedger(s: State, key: Key, on: bool)
    requires Ledger(s) && s.holder.Free?
    ensures Ledger(BanListStep(s, key, on))
  {
    hide Placed;
    SameListsPlaced(s, BanListStep(s, key, on), {});
  }

  lemma StepLedger(s: State, a: Action)
    requires Ledger(s) && Registering(s) && Early(s) && CallbacksSound(s) && Enabled(s, a)
    ensures Ledger(Step(s, a))
  {
    var s' := Step(s, a);
    if IsConnecting(a) {
      ConnectingFrame(s, a);
      hide Step, Ledger;
      if OnlyMoreConns(s, s') {
        MoreLedger(s, s');
      } else {
        DisplacedLedger(s, s', Entering(s, a).id);
      }
      return;
    }
    hide Ledger, SetKeyStep, RereadStep, RecoveredStep, LookAtStep, NoneFoundStep, SubmitStep, BanListStep;
    match a
    case SetKey(p, key) => SetKeyLedger(s, p, key);
    case Reread(p, key) => RereadLedger(s, p, key);
    case Recovered(p, key) =>
      AtPlaceOk(s, p);
      RecoveredLedger(s, p, key);
    case SendMessage(key, env) => SubmitLedger(s, key, env);
    case BanList(key, on) => BanListLedger(s, key, on);
    case LookAt(id) => LookAtLedger(s, id);
    case NoneFound => NoneFoundLedger(s);
  }

  /** No acknowledgement is among the messages submitted. */
  predicate OutsideOnly(s: State) {
    forall i :: 0 <= i < |s.submitted| ==> s.submitted[i].env.kind != ConfirmReply
  }

  lemma StepOutsideOnly(s: State, a: Action)
    requires OutsideOnly(s) && Enabled(s, a)
    ensures OutsideOnly(Step(s, a))
  {
    if !a.SendMessage? {
      SameSubmissions(s, a);
      hide Step;
    }
  }

  lemma SameSubmissions(s: State, a: Action)
    requires Enabled(s, a) && !a.SendMessage?
    ensures Step(s, a).submitted == s.submitted
  {
    hide AddConn, RecoveredStep, LookAtStep, NoneFoundStep, SetKeyStep, RereadStep;
    match a
    case SetKey(p, key) => SetKeyFrame(s, p, key);
    case Reread(p, key) => RereadFrame(s, p, key);
    case Recovered(p, key) => RecoveredFrame(s, p, key);
    case LookAt(id) => LookAtFrame(s, id);
    case NoneFound => NoneFoundFrame(s);
    case Enter => AddConnFrame(s, s.intake.locked.id, s.intake.locked.number, Step(s, a).intake);
    case BootstrapEnter => AddConnFrame(s, s.intake.boot.id, s.intake.boot.number, Step(s, a).intake);
    case _ =>
  }

  /** So none is among the messages that wait. */
  lemma WaitingFromOutside(s: State, key: Key)
    requires OutsideOnly(s) && Ledger(s)
    ensures forall t :: t in MessagesFor(s, key) ==> t.env.kind != ConfirmReply
  {
    forall t | t in MessagesFor(s, key) ensures t.env.kind != ConfirmReply {
      assert PostponedOk(s, Loose(s), key, t);
    }
  }

  lemma {:induction false} FlushRefusals(s: State, p: Place, key: Key, no: nat)
    requires HasPlace(s, p) && FateOf(s, no) != RefusedBanned && FateOf(Flush(s, p, key), no) == RefusedBanned
    ensures ConnAt(s, p).banned
    decreases |MessagesFor(s, key)|
  {
    hide WithConn, HasPlace, ConnAt;
    if MessagesFor(s, key) != [] {
      var m := Popped(s, key);
      PoppedFrame(s, p, key);
      HandOverFrame(m, p, MessagesFor(s, key)[0]);
      OnlyAtHas(m, FlushOne(s, p, key), p, Given(ConnAt(m, p), MessagesFor(s, key)[0]));
      if FateOf(FlushOne(s, p, key), no) != RefusedBanned {
        FlushRefusals(FlushOne(s, p, key), p, key, no);
      }
    }
  }

  /**
   A message is refused as banned only if the connection it is handed to is banned, or, when
   there is none, its key is.
   */
  lemma RefusalsAreBans(s: State, a: Action, no: nat)
    requires Enabled(s, a) && FateOf(s, no) != RefusedBanned && FateOf(Step(s, a), no) == RefusedBanned
    ensures (a.Recovered? && ConnAt(s, a.p).banned) || (a.LookAt? && s.conns[a.id].banned)
            || (a.NoneFound? && IsBanned(s, s.holder.key))
  {
    hide RecoveredStep, LookAtStep, NoneFoundStep, SetKeyStep, RereadStep, AddConn, FateOf;
    SameFate(s, Step(s, a), no);
    match a
    case Recovered(p, key) => RecoveredRefusals(s, p, key, no);
    case LookAt(id) => LookAtRefusals(s, id, no);
    case NoneFound => NoneFoundRefusals(s, no);
    case SetKey(p, key) => SetKeyFrame(s, p, key);
    case Reread(p, key) => RereadFrame(s, p, key);
    case SendMessage(key, env) => SubmitRefuses(s, key, env, no);
    case Enter => AddConnFrame(s, s.intake.locked.id, s.intake.locked.number, Step(s, a).intake);
    case BootstrapEnter => AddConnFrame(s, s.intake.boot.id, s.intake.boot.number, Step(s, a).intake);
    case _ =>
  }

  lemma SameFate(s: State, s': State, no: nat)
    ensures s'.fate == s.fate ==> FateOf(s', no) == FateOf(s, no)
  {
  }

  lemma SubmitRefuses(s: State, key: Key, env: Envelope, no: nat)
    requires FateOf(s, no) != RefusedBanned
    ensures FateOf(SubmitStep(s, key, env), no) != RefusedBanned
  {
  }

  lemma RecoveredRefusals(s: State, p: Place, key: Key, no: nat)
    requires HasPlace(s, p)
    requires FateOf(s, no) != RefusedBanned && FateOf(RecoveredStep(s, p, key), no) == RefusedBanned
    ensures ConnAt(s, p).banned
  {
    hide Flush;
    WithConnFrame(s, p, ConnAt(s, p).(callbacks := ConnAt(s, p).callbacks - multiset{key}));
    FlushRefusals(CallbackTaken(s, p, key), p, key, no);
  }

  lemma LookAtRefusals(s: State, id: PeerId, no: nat)
    requires Enabled(s, LookAt(id))
    requires FateOf(s, no) != RefusedBanned && FateOf(LookAtStep(s, id), no) == RefusedBanned
    ensures s.conns[id].banned
  {
  }

  lemma NoneFoundRefusals(s: State, no: nat)
    requires Enabled(s, NoneFound)
    requires FateOf(s, no) != RefusedBanned && FateOf(NoneFoundStep(s), no) == RefusedBanned
    ensures IsBanned(s, s.holder.key)
  {
  }
}

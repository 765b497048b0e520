/** No message given to the registry is stranded. */
module PostponedMessages {
  import opened Registry
  import opened RegistryLaws

  /** Some connection carries `key`. */
  predicate HasConn(s: State, key: Key) {
    exists id :: id in s.conns && s.conns[id].key == key
  }

  /** If messages wait for the key of connection `c`, a callback of its for the key is still to come. */
  predicate WaitOk(s: State, c: Conn) {
    c.key != "" && MessagesFor(s, c.key) != [] ==> c.key in c.callbacks
  }

  ghost predicate NotStranded(s: State) {
    forall id :: id in s.conns ==> WaitOk(s, s.conns[id])
  }

  /** Callbacks to come are for keys, and for the connection's own one unless it was replaced. */
  predicate CallbacksOk(c: Conn) {
    forall key :: key in c.callbacks ==> key != "" && c.key != "" && (!c.rekeyed ==> key == c.key)
  }

  ghost predicate CallbacksSound(s: State) {
    forall p :: HasPlace(s, p) ==> CallbacksOk(ConnAt(s, p))
  }

  /** The second lookup for `key` has passed connection `c`: then a callback for the key is to come, if `c` has it. */
  predicate PassedOk(c: Conn, key: Key) {
    c.key == key ==> key in c.callbacks
  }

  /** A connection that got the key after the second lookup had passed it has a callback to come. */
  ghost predicate LookupSound(s: State) {
    s.holder.Sending? && s.holder.second && s.holder.key != "" ==>
      forall id :: id in s.conns && id !in s.holder.left ==> PassedOk(s.conns[id], s.holder.key)
  }

  ghost predicate Waiting(s: State) {
    NotStranded(s) && CallbacksSound(s) && LookupSound(s)
  }

  // ----- steps that change one connection -----

  lemma OneCallbacksSound(s: State, s': State, p: Place)
    requires CallbacksSound(s) && HasPlace(s, p) && HasPlace(s', p) && OnlyAt(s, s', p, ConnAt(s', p))
    requires CallbacksOk(ConnAt(s', p))
    ensures CallbacksSound(s')
  {
    hide CallbacksOk;
    forall q | HasPlace(s', q) ensures CallbacksOk(ConnAt(s', q)) {
      assert HasPlace(s, q);
    }
  }

  /** Lists have at most been emptied. */
  ghost predicate NoMoreWait(s: State, s': State) {
    forall k :: MessagesFor(s', k) == MessagesFor(s, k) || MessagesFor(s', k) == []
  }

  lemma OneNotStranded(s: State, s': State, p: Place)
    requires NotStranded(s) && HasPlace(s, p) && HasPlace(s', p) && OnlyAt(s, s', p, ConnAt(s', p))
    requires NoMoreWait(s, s') && (p.Entered? ==> WaitOk(s', ConnAt(s', p)))
    ensures NotStranded(s')
  {
    forall id | id in s'.conns ensures WaitOk(s', s'.conns[id]) {
      if p != Entered(id) {
        assert WaitOk(s, s.conns[id]) && s'.conns[id] == s.conns[id];
      }
    }
  }

  lemma OneLookupSound(s: State, s': State, p: Place)
    requires LookupSound(s) && HasPlace(s, p) && HasPlace(s', p) && OnlyAt(s, s', p, ConnAt(s', p))
    requires s'.holder == s.holder
    requires forall key :: PassedOk(ConnAt(s, p), key) ==> PassedOk(ConnAt(s', p), key)
    ensures LookupSound(s')
  {
    hide PassedOk;
    if s.holder.Sending? && s.holder.second && s.holder.key != "" {
      forall id | id in s'.conns && id !in s'.holder.left ensures PassedOk(s'.conns[id], s'.holder.key) {
        assert PassedOk(s.conns[id], s.holder.key);
      }
    }
  }

  lemma SetKeyWaits(s: State, p: Place, key: Key)
    requires Waiting(s) && Enabled(s, SetKey(p, key))
    ensures Waiting(SetKeyStep(s, p, key))
  {
    hide HasPlace, ConnAt, NotStranded, CallbacksSound, LookupSound, OnlyAt;
    var s' := SetKeyStep(s, p, key);
    SetKeyFrame(s, p, key);
    OnlyAtHas(s, s', p, Keyed(ConnAt(s, p), key));
    AtPlaceOk(s, p);
    assert forall k :: MessagesFor(s', k) == MessagesFor(s, k);
    hide SetKeyStep;
    OneNotStranded(s, s', p);
    OneCallbacksSound(s, s', p);
    KeyedPassed(ConnAt(s, p), key);
    OneLookupSound(s, s', p);
  }

  lemma KeyedPassed(c: Conn, key: Key)
    ensures forall k :: PassedOk(c, k) ==> PassedOk(Keyed(c, key), k)
    ensures CallbacksOk(c) && key != "" ==> CallbacksOk(Keyed(c, key))
  {
  }

  lemma AtPlaceOk(s: State, p: Place)
    requires CallbacksSound(s) && HasPlace(s, p)
    ensures CallbacksOk(ConnAt(s, p))
  {
  }

  lemma RereadWaits(s: State, p: Place, key: Key)
    requires Waiting(s) && Enabled(s, Reread(p, key))
    ensures Waiting(RereadStep(s, p, key))
  {
    hide HasPlace, ConnAt, NotStranded, CallbacksSound, LookupSound, OnlyAt;
    var s' := RereadStep(s, p, key);
    RereadFrame(s, p, key);
    AtPlaceOk(s, p);
    CarrierWaits(s, p);
    assert forall k :: MessagesFor(s', k) == MessagesFor(s, k);
    hide RereadStep, MessagesFor;
    OneNotStranded(s, s', p);
    OneCallbacksSound(s, s', p);
    OneLookupSound(s, s', p);
  }

  lemma RecoveredWaits(s: State, p: Place, key: Key)
    requires Waiting(s) && Enabled(s, Recovered(p, key))
    ensures Waiting(RecoveredStep(s, p, key))
  {
    hide HasPlace, ConnAt, NotStranded, CallbacksSound, OnlyAt, RecoveredStep;
    var s' := RecoveredStep(s, p, key);
    RecoveredFrame(s, p, key);
    AtPlaceOk(s, p);
    OneCallbacksSound(s, s', p);
    CarrierWaits(s, p);
    CalledBackWaits(s, s', p, key);
    OneNotStranded(s, s', p);
  }

  lemma CarrierWaits(s: State, p: Place)
    requires NotStranded(s) && HasPlace(s, p)
    ensures p.Entered? ==> WaitOk(s, ConnAt(s, p))
  {
  }

  lemma CalledBackWaits(s: State, s': State, p: Place, key: Key)
    requires HasPlace(s, p) && HasPlace(s', p) && MessagesFor(s', key) == []
    requires CalledBack(ConnAt(s, p), ConnAt(s', p), key, IsBanned(s, key))
    requires forall k :: k != key ==> MessagesFor(s', k) == MessagesFor(s, k)
    requires p.Entered? ==> WaitOk(s, ConnAt(s, p))
    ensures p.Entered? ==> WaitOk(s', ConnAt(s', p))
  {
  }

  lemma LookAtWaits(s: State, id: PeerId)
    requires Waiting(s) && Enabled(s, LookAt(id))
    ensures Waiting(LookAtStep(s, id))
  {
    LookAtFrame(s, id);
    hide NotStranded, CallbacksSound, LookAtStep;
    var s' := LookAtStep(s, id);
    assert forall k :: MessagesFor(s', k) == MessagesFor(s, k);
    AtPlaceOk(s, Entered(id));
    OneNotStranded(s, s', Entered(id));
    OneCallbacksSound(s, s', Entered(id));
  }

  // ----- the other steps -----

  lemma MoreWaits(s: State, s': State)
    requires Waiting(s) && OnlyMoreConns(s, s')
    ensures Waiting(s')
  {
    assert forall k :: MessagesFor(s', k) == MessagesFor(s, k);
    forall id | id in s'.conns ensures WaitOk(s', s'.conns[id]) {
      if id in s.conns {
        assert WaitOk(s, s.conns[id]);
      }
    }
    forall q | HasPlace(s', q) ensures CallbacksOk(ConnAt(s', q)) {
      if q.Orphaned? || q.id in s.conns {
        assert HasPlace(s, q);
      }
    }
  }

  lemma DisplacedWaits(s: State, s': State, gone: PeerId)
    requires Waiting(s) && Displaces(s, s', gone)
    ensures Waiting(s')
  {
    assert forall k :: MessagesFor(s', k) == MessagesFor(s, k);
    forall id | id in s'.conns ensures WaitOk(s', s'.conns[id]) {
      assert WaitOk(s, s.conns[id]);
    }
    forall q | HasPlace(s', q) ensures CallbacksOk(ConnAt(s', q)) {
      if q.Entered? {
        assert HasPlace(s, q);
      } else if q.i < |s.orphans| {
        assert HasPlace(s, q);
      } else {
        assert HasPlace(s, Entered(gone));
      }
    }
  }

  lemma NoneFoundWaits(s: State)
    requires Waiting(s) && Enabled(s, NoneFound)
    ensures Waiting(NoneFoundStep(s))
  {
    NoneFoundFrame(s);
    var s' := NoneFoundStep(s);
    hide NoneFoundStep;
    SamePlacesSound(s, s');
    forall id | id in s'.conns ensures WaitOk(s', s'.conns[id]) {
      assert WaitOk(s, s.conns[id]);
      if s.holder.Sending? && s.holder.second && s.holder.key != "" {
        assert PassedOk(s.conns[id], s.holder.key);
      }
    }
  }

  lemma SamePlacesSound(s: State, s': State)
    requires CallbacksSound(s) && s'.conns == s.conns && s'.orphans == s.orphans
    ensures CallbacksSound(s')
  {
    forall q | HasPlace(s', q) ensures CallbacksOk(ConnAt(s', q)) {
      assert HasPlace(s, q);
    }
  }

  /** A call takes the lock. */
  lemma TakenWaits(s: State, s': State)
    requires Waiting(s) && s'.conns == s.conns && s'.orphans == s.orphans && s'.messages == s.messages
    requires s'.holder.Sending? ==> !s'.holder.second
    ensures Waiting(s')
  {
    SamePlacesSound(s, s');
    forall id | id in s'.conns ensures WaitOk(s', s'.conns[id]) {
      assert WaitOk(s, s.conns[id]);
    }
  }

  lemma StepWaits(s: State, a: Action)
    requires Waiting(s) && Registering(s) && Early(s) && Enabled(s, a)
    ensures Waiting(Step(s, a))
  {
    var s' := Step(s, a);
    if IsConnecting(a) {
      ConnectingFrame(s, a);
      hide Step, Waiting;
      if OnlyMoreConns(s, s') {
        MoreWaits(s, s');
      } else {
        DisplacedWaits(s, s', Entering(s, a).id);
      }
      return;
    }
    hide Waiting, SetKeyStep, RereadStep, RecoveredStep, LookAtStep, NoneFoundStep;
    match a
    case SetKey(p, key) => SetKeyWaits(s, p, key);
    case Reread(p, key) => RereadWaits(s, p, key);
    case Recovered(p, key) => RecoveredWaits(s, p, key);
    case SendMessage(_, _) => TakenWaits(s, s');
    case BanList(_, _) => TakenWaits(s, s');
    case LookAt(id) => LookAtWaits(s, id);
    case NoneFound => NoneFoundWaits(s);
  }
}

/** The ban flags of connections follow the ban list. */
module BanAgreement {
  import opened Envelopes
  import opened Registry
  import opened RegistryLaws
  import opened PostponedMessages

  /** At most one connection carries `key`. */
  ghost predicate AtMostOne(s: State, key: Key) {
    forall i, j :: i in s.conns && j in s.conns && s.conns[i].key == key && s.conns[j].key == key ==> i == j
  }

  /** The connection's flag is what the list says about its key. */
  predicate Agrees(s: State, id: PeerId)
    requires id in s.conns
  {
    s.conns[id].banned == IsBanned(s, s.conns[id].key)
  }

  /** A call that changes the list entry of this connection's key has not looked at it yet. */
  predicate BanDue(s: State, id: PeerId)
    requires id in s.conns
  {
    s.holder.Banning? && s.holder.key == s.conns[id].key && id in s.holder.left
  }

  /** A connection that got a banned key will be banned by its callback. */
  predicate BanComing(s: State, id: PeerId)
    requires id in s.conns
  {
    IsBanned(s, s.conns[id].key) && !s.conns[id].banned && s.conns[id].key in s.conns[id].callbacks
  }

  ghost predicate FlagOk(s: State, id: PeerId) {
    id in s.conns ==>
      if s.conns[id].key == "" then !s.conns[id].banned
      else AtMostOne(s, s.conns[id].key) ==> Agrees(s, id) || BanDue(s, id) || BanComing(s, id)
  }

  ghost predicate FlagsFollow(s: State) {
    forall id: PeerId :: FlagOk(s, id)
  }

  /** While a change of the list is under way, the list already has the new value. */
  ghost predicate ListSound(s: State) {
    s.holder.Banning? ==> s.holder.on == IsBanned(s, s.holder.key)
  }

  /** Callbacks to come are for the keys their connections have. */
  predicate CallbackCurrent(c: Conn) {
    forall key :: key in c.callbacks ==> key != "" && key == c.key
  }

  ghost predicate CallbacksCurrent(s: State) {
    forall id :: id in s.conns ==> CallbackCurrent(s.conns[id])
  }

  /** A ban or unban of the empty key finds a connection. */
  predicate GoesAstray(s: State, a: Action) {
    a.LookAt? && a.id in s.conns && s.holder.Banning? && s.holder.key == "" && s.conns[a.id].key == ""
  }

  // ----- steps that change one connection -----

  /** Keys are as they were, but for the connection at `id`, which may have got its first. */
  ghost predicate KeysKept(s: State, s': State) {
    && s'.conns.Keys == s.conns.Keys
    && forall i :: i in s.conns && s.conns[i].key != "" ==> s'.conns[i].key == s.conns[i].key
  }

  lemma UniqueBefore(s: State, s': State, key: Key)
    requires AtMostOne(s', key) && key != "" && KeysKept(s, s')
    ensures AtMostOne(s, key)
  {
    forall i, j | i in s.conns && j in s.conns && s.conns[i].key == key && s.conns[j].key == key ensures i == j {
      assert s'.conns[i].key == key && s'.conns[j].key == key;
    }
  }

  /** A connection whose flag, key and callbacks are the same, and whose due change is still due or was made. */
  lemma FlagCarries(s: State, s': State, id: PeerId)
    requires FlagOk(s, id) && id in s.conns && id in s'.conns
    requires s'.conns[id].key == s.conns[id].key && s'.conns[id].banned == s.conns[id].banned
    requires s.conns[id].key in s.conns[id].callbacks ==> s.conns[id].key in s'.conns[id].callbacks
    requires s.conns[id].key != "" && AtMostOne(s', s.conns[id].key) ==> AtMostOne(s, s.conns[id].key)
    requires s'.bannedPeer == s.bannedPeer && (BanDue(s, id) ==> BanDue(s', id) || Agrees(s', id))
    ensures FlagOk(s', id)
  {
  }

  /** Only the connection at `p` has changed, it kept its key if it had one, and its flag is as it must be. */
  lemma OneFlagsFollow(s: State, s': State, p: Place)
    requires FlagsFollow(s) && HasPlace(s, p) && HasPlace(s', p) && OnlyAt(s, s', p, ConnAt(s', p))
    requires KeysKept(s, s') && s'.bannedPeer == s.bannedPeer && s'.holder == s.holder
    requires p.Entered? ==> FlagOk(s', p.id)
    ensures FlagsFollow(s')
  {
    forall i: PeerId ensures FlagOk(s', i) {
      assert FlagOk(s, i);
      if i in s.conns && p != Entered(i) {
        assert s'.conns[i] == s.conns[i];
        if s.conns[i].key != "" && AtMostOne(s', s.conns[i].key) {
          UniqueBefore(s, s', s.conns[i].key);
        }
        FlagCarries(s, s', i);
      }
    }
  }

  lemma SetKeyFlags(s: State, p: Place, key: Key)
    requires FlagsFollow(s) && Enabled(s, SetKey(p, key)) && (p.Entered? ==> !Replaces(s, SetKey(p, key)))
    ensures FlagsFollow(SetKeyStep(s, p, key))
  {
    var s' := SetKeyStep(s, p, key);
    SetKeyFrame(s, p, key);
    OnlyAtHas(s, s', p, Keyed(ConnAt(s, p), key));
    if p.Entered? {
      assert FlagOk(s, p.id);
      if AtMostOne(s', key) {
        UniqueBefore(s, s', key);
      }
    }
    OneFlagsFollow(s, s', p);
  }

  lemma RereadFlags(s: State, p: Place, key: Key)
    requires FlagsFollow(s) && Enabled(s, Reread(p, key)) && (p.Entered? ==> CallbackCurrent(ConnAt(s, p)))
    ensures FlagsFollow(RereadStep(s, p, key))
  {
    var s' := RereadStep(s, p, key);
    RereadFrame(s, p, key);
    if p.Entered? {
      assert FlagOk(s, p.id);
      if s.conns[p.id].key != "" && AtMostOne(s', s.conns[p.id].key) {
        UniqueBefore(s, s', s.conns[p.id].key);
      }
    }
    hide RereadStep;
    OneFlagsFollow(s, s', p);
  }

  lemma RecoveredFlags(s: State, p: Place, key: Key)
    requires FlagsFollow(s) && Enabled(s, Recovered(p, key)) && (p.Entered? ==> CallbackCurrent(ConnAt(s, p)))
    ensures FlagsFollow(RecoveredStep(s, p, key))
  {
    hide RecoveredStep, FlagOk;
    var s' := RecoveredStep(s, p, key);
    RecoveredFrame(s, p, key);
    if p.Entered? {
      assert FlagOk(s, p.id);
      CalledBackFlag(s, s', p.id, key);
    }
    OneFlagsFollow(s, s', p);
  }

  /** After the callback the flag is right at once. */
  lemma CalledBackFlag(s: State, s': State, id: PeerId, key: Key)
    requires id in s.conns && id in s'.conns && FlagOk(s, id) && KeysKept(s, s') && s'.bannedPeer == s.bannedPeer
    requires CalledBack(s.conns[id], s'.conns[id], key, IsBanned(s, key)) && s.holder.Free?
    requires key != "" && key == s.conns[id].key
    ensures FlagOk(s', id)
  {
    if AtMostOne(s', key) {
      UniqueBefore(s, s', key);
    }
  }

  // ----- the other steps -----

  lemma MoreFlags(s: State, s': State)
    requires FlagsFollow(s) && OnlyMoreConns(s, s')
    ensures FlagsFollow(s')
  {
    forall id: PeerId ensures FlagOk(s', id) {
      assert FlagOk(s, id);
      if id in s.conns {
        if s.conns[id].key != "" && AtMostOne(s', s.conns[id].key) {
          MoreUnique(s, s', s.conns[id].key);
        }
        FlagCarries(s, s', id);
      }
    }
  }

  lemma MoreUnique(s: State, s': State, key: Key)
    requires OnlyMoreConns(s, s') && AtMostOne(s', key)
    ensures AtMostOne(s, key)
  {
    forall i, j | i in s.conns && j in s.conns && s.conns[i].key == key && s.conns[j].key == key ensures i == j {
      assert s'.conns[i].key == key && s'.conns[j].key == key;
    }
  }

  /** Where nothing has been asked of the service, no flag is set and none should be. */
  lemma UntouchedFollows(s: State)
    requires Untouched(s)
    ensures FlagsFollow(s)
  {
    forall id: PeerId ensures FlagOk(s, id) {
      if id in s.conns {
        assert HasPlace(s, Entered(id)) && !ConnAt(s, Entered(id)).banned;
      }
    }
  }

  /** A change of the list is due at every connection with the key until the lookup finds it. */
  lemma BanListFlags(s: State, key: Key, on: bool)
    requires FlagsFollow(s) && s.holder.Free?
    ensures FlagsFollow(BanListStep(s, key, on))
  {
    var s' := BanListStep(s, key, on);
    forall i: PeerId ensures FlagOk(s', i) {
      assert FlagOk(s, i);
      if i in s.conns && s.conns[i].key != "" && AtMostOne(s', s.conns[i].key) {
        assert AtMostOne(s, s.conns[i].key);
      }
    }
  }

  lemma SubmitFlags(s: State, key: Key, env: Envelope)
    requires FlagsFollow(s) && s.holder.Free?
    ensures FlagsFollow(SubmitStep(s, key, env))
  {
    var s' := SubmitStep(s, key, env);
    forall i: PeerId ensures FlagOk(s', i) {
      assert FlagOk(s, i);
      if i in s.conns {
        if s.conns[i].key != "" && AtMostOne(s', s.conns[i].key) {
          assert AtMostOne(s, s.conns[i].key);
        }
        FlagCarries(s, s', i);
      }
    }
  }

  /** Every connection has the key and the callbacks it had. */
  ghost predicate SameKeyed(s: State, s': State) {
    s'.conns.Keys == s.conns.Keys
    && forall i :: i in s.conns ==> s'.conns[i].key == s.conns[i].key && s'.conns[i].callbacks == s.conns[i].callbacks
  }

  lemma SameKeyedFlag(s: State, s': State, i: PeerId)
    requires FlagOk(s, i) && SameKeyed(s, s') && i in s.conns && s'.bannedPeer == s.bannedPeer
    requires s'.conns[i].banned == s.conns[i].banned && (BanDue(s, i) ==> BanDue(s', i))
    ensures FlagOk(s', i)
  {
    if s.conns[i].key != "" && AtMostOne(s', s.conns[i].key) {
      UniqueBefore(s, s', s.conns[i].key);
    }
    FlagCarries(s, s', i);
  }

  lemma LookAtFlags(s: State, id: PeerId)
    requires FlagsFollow(s) && ListSound(s) && Enabled(s, LookAt(id)) && !GoesAstray(s, LookAt(id))
    ensures FlagsFollow(LookAtStep(s, id))
  {
    LookAtFrame(s, id);
    var s' := LookAtStep(s, id);
    assert SameKeyed(s, s');
    forall i: PeerId ensures FlagOk(s', i) {
      assert FlagOk(s, i);
      if i in s.conns {
        LookAtFlag(s, id, i);
      }
    }
  }

  lemma LookAtFlag(s: State, id: PeerId, i: PeerId)
    requires FlagOk(s, i) && ListSound(s) && Enabled(s, LookAt(id)) && !GoesAstray(s, LookAt(id)) && i in s.conns
    requires SameKeyed(s, LookAtStep(s, id))
    ensures FlagOk(LookAtStep(s, id), i)
  {
    LookAtFrame(s, id);
    var s' := LookAtStep(s, id);
    hide LookAtStep, SameKeyed, FlagOk;
    assert s'.conns[i].key == s.conns[i].key by {
      KeyOf(s, s', i);
    }
    if s.holder.Banning? && s.conns[id].key == s.holder.key && s.conns[i].key == s.holder.key {
      if i == id {
        AgreeingFlag(s', i);
      } else {
        KeyOf(s, s', id);
        SharedFlag(s', i, id);
      }
    } else {
      SameKeyedFlag(s, s', i);
    }
  }

  lemma KeyOf(s: State, s': State, i: PeerId)
    requires SameKeyed(s, s') && i in s.conns
    ensures i in s'.conns && s'.conns[i].key == s.conns[i].key
  {
  }

  lemma AgreeingFlag(s: State, id: PeerId)
    requires id in s.conns && s.conns[id].key != "" && Agrees(s, id)
    ensures FlagOk(s, id)
  {
  }

  lemma SharedFlag(s: State, i: PeerId, j: PeerId)
    requires i in s.conns && j in s.conns && i != j && s.conns[i].key == s.conns[j].key != ""
    ensures FlagOk(s, i)
  {
  }

  lemma NoneFoundFlags(s: State)
    requires FlagsFollow(s) && Enabled(s, NoneFound)
    ensures FlagsFollow(NoneFoundStep(s))
  {
    NoneFoundFrame(s);
    var s' := NoneFoundStep(s);
    hide NoneFoundStep;
    forall i: PeerId ensures FlagOk(s', i) {
      assert FlagOk(s, i);
      if i in s.conns {
        if s.conns[i].key != "" && AtMostOne(s', s.conns[i].key) {
          assert AtMostOne(s, s.conns[i].key);
        }
        FlagCarries(s, s', i);
      }
    }
  }

  /**
   Flags follow over every step that neither replaces a connection's key nor lets a ban of the empty
   key find a connection.
   */
  lemma StepFlags(s: State, a: Action)
    requires FlagsFollow(s) && ListSound(s) && CallbacksCurrent(s) && Enabled(s, a)
    requires (a.SetKey? && a.p.Entered? ==> !Replaces(s, a)) && !GoesAstray(s, a)
    requires IsConnecting(a) ==> OnlyMoreConns(s, Step(s, a))
    ensures FlagsFollow(Step(s, a))
  {
    if IsConnecting(a) {
      hide Step, FlagsFollow;
      MoreFlags(s, Step(s, a));
      return;
    }
    if (a.Reread? || a.Recovered?) && a.p.Entered? {
      assert CallbackCurrent(s.conns[a.p.id]);
    }
    hide FlagsFollow, SetKeyStep, RereadStep, RecoveredStep, LookAtStep, NoneFoundStep, SubmitStep, BanListStep;
    match a
    case SetKey(p, key) => SetKeyFlags(s, p, key);
    case Reread(p, key) => RereadFlags(s, p, key);
    case Recovered(p, key) => RecoveredFlags(s, p, key);
    case SendMessage(key, env) => SubmitFlags(s, key, env);
    case BanList(key, on) => BanListFlags(s, key, on);
    case LookAt(id) => LookAtFlags(s, id);
    case NoneFound => NoneFoundFlags(s);
  }

  lemma SameListSound(s: State, s': State)
    requires ListSound(s) && s'.bannedPeer == s.bannedPeer && (s'.holder == s.holder || !s'.holder.Banning?)
    ensures ListSound(s')
  {
  }

  lemma StepListSound(s: State, a: Action)
    requires ListSound(s) && Registering(s) && Early(s) && Enabled(s, a)
    ensures ListSound(Step(s, a))
  {
    if IsConnecting(a) {
      ConnectingFrame(s, a);
      hide Step, ListSound, Registering, Early;
      SameListSound(s, Step(s, a));
      return;
    }
    hide SetKeyStep, RereadStep, RecoveredStep, LookAtStep, NoneFoundStep, Registering, Early;
    match a
    case SetKey(p, key) => SetKeyFrame(s, p, key);
    case Reread(p, key) => RereadFrame(s, p, key);
    case Recovered(p, key) => RecoveredFrame(s, p, key);
    case LookAt(id) => LookAtFrame(s, id);
    case NoneFound => NoneFoundFrame(s);
    case _ =>
  }

  // ----- over runs -----

  /** No connection in the maps has had its key replaced. */
  ghost predicate NoneRekeyed(s: State) {
    forall id :: id in s.conns ==> !s.conns[id].rekeyed
  }

  ghost predicate BansFollow(s: State) {
    !s.strayBan && NoneRekeyed(s) ==> FlagsFollow(s)
  }

  lemma NoneRekeyedCurrent(s: State)
    requires NoneRekeyed(s) && CallbacksSound(s)
    ensures CallbacksCurrent(s)
  {
    forall id | id in s.conns ensures CallbackCurrent(s.conns[id]) {
      assert HasPlace(s, Entered(id)) && CallbacksOk(ConnAt(s, Entered(id)));
    }
  }

  /** A replaced key stays noted. */
  lemma RekeyedStays(s: State, a: Action)
    requires Enabled(s, a) && (IsConnecting(a) ==> OnlyMoreConns(s, Step(s, a)))
    ensures NoneRekeyed(Step(s, a)) ==> NoneRekeyed(s) && (a.SetKey? && a.p.Entered? ==> !Replaces(s, a))
    ensures !Step(s, a).strayBan ==> !s.strayBan && !GoesAstray(s, a)
  {
    var s' := Step(s, a);
    if NoneRekeyed(s') {
      forall id | id in s.conns ensures id in s'.conns && !s.conns[id].rekeyed {
        StillRekeyed(s, a, id);
      }
      if a.SetKey? && a.p.Entered? {
        StillRekeyed(s, a, a.p.id);
      }
    }
    StraysNoted(s, a);
    hide Step;
  }

  lemma OneStillRekeyed(s: State, s': State, p: Place, id: PeerId)
    requires HasPlace(s, p) && HasPlace(s', p) && OnlyAt(s, s', p, ConnAt(s', p)) && id in s.conns
    requires ConnAt(s, p).rekeyed ==> ConnAt(s', p).rekeyed
    ensures id in s'.conns && (s.conns[id].rekeyed ==> s'.conns[id].rekeyed)
    ensures p == Entered(id) ==> s'.conns[id] == ConnAt(s', p)
  {
  }

  lemma StillRekeyed(s: State, a: Action, id: PeerId)
    requires Enabled(s, a) && (IsConnecting(a) ==> OnlyMoreConns(s, Step(s, a))) && id in s.conns
    ensures id in Step(s, a).conns && (s.conns[id].rekeyed ==> Step(s, a).conns[id].rekeyed)
    ensures a.SetKey? && a.p == Entered(id) && Replaces(s, a) ==> Step(s, a).conns[id].rekeyed
  {
    var s' := Step(s, a);
    if IsConnecting(a) {
      hide Step;
      return;
    }
    hide SetKeyStep, RecoveredStep, LookAtStep, NoneFoundStep, RereadStep, OnlyAt;
    match a
    case SetKey(p, key) =>
      SetKeyFrame(s, p, key);
      OnlyAtHas(s, s', p, Keyed(ConnAt(s, p), key));
      OneStillRekeyed(s, s', p, id);
    case Reread(p, key) =>
      RereadFrame(s, p, key);
      OneStillRekeyed(s, s', p, id);
    case Recovered(p, key) =>
      RecoveredFrame(s, p, key);
      OneStillRekeyed(s, s', p, id);
    case LookAt(i) =>
      LookAtFrame(s, i);
      OneStillRekeyed(s, s', Entered(i), id);
    case NoneFound => NoneFoundFrame(s);
    case _ =>
  }

  lemma StraysNoted(s: State, a: Action)
    requires Enabled(s, a) && (IsConnecting(a) ==> OnlyMoreConns(s, Step(s, a)))
    ensures !Step(s, a).strayBan ==> !s.strayBan && !GoesAstray(s, a)
  {
    if IsConnecting(a) {
      hide Step;
      return;
    }
    hide SetKeyStep, RecoveredStep, LookAtStep, NoneFoundStep, RereadStep;
    match a
    case SetKey(p, key) => SetKeyFrame(s, p, key);
    case Reread(p, key) => RereadFrame(s, p, key);
    case Recovered(p, key) => RecoveredFrame(s, p, key);
    case LookAt(i) => LookAtFrame(s, i);
    case NoneFound => NoneFoundFrame(s);
    case _ =>
  }

  lemma StepBans(s: State, a: Action)
    requires BansFollow(s) && ListSound(s) && CallbacksSound(s) && Registering(s) && Early(s) && Enabled(s, a)
    ensures BansFollow(Step(s, a))
  {
    var s' := Step(s, a);
    if !s'.strayBan && NoneRekeyed(s') {
      if IsConnecting(a) {
        ConnectingFrame(s, a);
      }
      hide FlagsFollow, NoneRekeyed, ListSound, CallbacksSound, Registering, Early, Step, Untouched;
      if IsConnecting(a) && !OnlyMoreConns(s, s') {
        DisplacedUntouched(s, s', Entering(s, a).id);
        UntouchedFollows(s');
      } else {
        RekeyedStays(s, a);
        NoneRekeyedCurrent(s);
        StepFlags(s, a);
      }
    }
  }
}

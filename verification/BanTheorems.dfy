/** Exactly from which states on the ban flags of connections keep agreeing with the ban list. */
module BanTheorems {
  import opened Envelopes
  import opened Registry
  import opened RegistryLaws
  import opened MessageLedger
  import opened BanAgreement
  import opened RegistryTheorems

  /** Bans, unbans, their lookups, and keys becoming known; no connection in the maps has its key replaced. */
  predicate BanTraffic(s: State, a: Action) {
    || a.BanList? || a.LookAt? || a.NoneFound? || a.Reread? || a.Recovered?
    || (a.SetKey? && (a.p.Entered? ==> !Replaces(s, a)))
  }

  /** `actions`, all of them ban traffic, lead from `s` to `s'`. */
  ghost predicate TrafficLeads(s: State, actions: seq<Action>, s': State)
    decreases |actions|
  {
    if actions == [] then s' == s
    else Enabled(s, actions[0]) && BanTraffic(s, actions[0]) && TrafficLeads(Step(s, actions[0]), actions[1..], s')
  }

  /** No call is under way, and no connection in the maps has a callback to come. */
  predicate Quiet(s: State) {
    LockFree(s) && forall id :: id in s.conns ==> s.conns[id].callbacks == multiset{}
  }

  /** Every connection whose key is known is banned exactly if the list says so. */
  predicate AllAgree(s: State) {
    forall id :: id in s.conns && s.conns[id].key != "" ==> Agrees(s, id)
  }

  /** All flags are right whenever ban traffic from `s` on has come to rest. */
  ghost predicate BansStayRight(s: State) {
    forall actions, s' :: TrafficLeads(s, actions, s') && Quiet(s') ==> AllAgree(s')
  }

  /** Every connection has a key of its own. */
  predicate OwnKeys(s: State) {
    && (forall id :: id in s.conns ==> s.conns[id].key != "")
    && (forall i, j :: i in s.conns && j in s.conns && s.conns[i].key == s.conns[j].key ==> i == j)
  }

  // ----- what ban traffic keeps when every connection has its own key -----

  ghost predicate Settled(s: State) {
    Invariant(s) && OwnKeys(s) && FlagsFollow(s) && CallbacksCurrent(s)
  }

  /** Keys are the same, and callbacks are still for them. */
  ghost predicate KeysSettled(s: State, s': State) {
    && s'.conns.Keys == s.conns.Keys
    && forall id :: id in s.conns ==> s'.conns[id].key == s.conns[id].key && CallbackCurrent(s'.conns[id])
  }

  lemma OneSettled(s: State, s': State, p: Place)
    requires CallbacksCurrent(s) && HasPlace(s, p) && HasPlace(s', p) && OnlyAt(s, s', p, ConnAt(s', p))
    requires p.Entered? ==> ConnAt(s', p).key == ConnAt(s, p).key && CallbackCurrent(ConnAt(s', p))
    ensures KeysSettled(s, s')
  {
  }

  lemma SetKeyKeepsKeys(s: State, p: Place, key: Key)
    requires OwnKeys(s) && CallbacksCurrent(s) && Enabled(s, SetKey(p, key)) && BanTraffic(s, SetKey(p, key))
    ensures KeysSettled(s, SetKeyStep(s, p, key))
  {
    if p.Entered? {
      assert CallbackCurrent(s.conns[p.id]) && s.conns[p.id].key != "";
    }
    hide SetKeyStep, OwnKeys;
    SetKeyFrame(s, p, key);
    OnlyAtHas(s, SetKeyStep(s, p, key), p, Keyed(ConnAt(s, p), key));
    OneSettled(s, SetKeyStep(s, p, key), p);
  }

  lemma RereadKeepsKeys(s: State, p: Place, key: Key)
    requires OwnKeys(s) && CallbacksCurrent(s) && Enabled(s, Reread(p, key))
    ensures KeysSettled(s, RereadStep(s, p, key))
  {
    if p.Entered? {
      assert CallbackCurrent(s.conns[p.id]) && s.conns[p.id].key != "";
    }
    hide RereadStep, OwnKeys;
    RereadFrame(s, p, key);
    OneSettled(s, RereadStep(s, p, key), p);
  }

  lemma RecoveredKeepsKeys(s: State, p: Place, key: Key)
    requires CallbacksCurrent(s) && Enabled(s, Recovered(p, key))
    ensures KeysSettled(s, RecoveredStep(s, p, key))
  {
    if p.Entered? {
      assert CallbackCurrent(s.conns[p.id]);
    }
    hide RecoveredStep;
    RecoveredFrame(s, p, key);
    OneSettled(s, RecoveredStep(s, p, key), p);
  }

  lemma LookAtKeepsKeys(s: State, id: PeerId)
    requires CallbacksCurrent(s) && Enabled(s, LookAt(id))
    ensures KeysSettled(s, LookAtStep(s, id))
  {
    assert CallbackCurrent(s.conns[id]);
    hide LookAtStep;
    LookAtFrame(s, id);
    OneSettled(s, LookAtStep(s, id), Entered(id));
  }

  lemma TrafficKeepsKeys(s: State, a: Action)
    requires OwnKeys(s) && CallbacksCurrent(s) && Enabled(s, a) && BanTraffic(s, a)
    ensures KeysSettled(s, Step(s, a))
  {
    hide RecoveredStep, LookAtStep, NoneFoundStep, SetKeyStep, RereadStep, OwnKeys;
    match a
    case SetKey(p, key) => SetKeyKeepsKeys(s, p, key);
    case Reread(p, key) => RereadKeepsKeys(s, p, key);
    case Recovered(p, key) => RecoveredKeepsKeys(s, p, key);
    case LookAt(id) => LookAtKeepsKeys(s, id);
    case NoneFound => NoneFoundFrame(s);
    case BanList(key, on) =>
  }

  lemma KeysKeptSettled(s: State, s': State)
    requires OwnKeys(s) && KeysSettled(s, s')
    ensures OwnKeys(s') && CallbacksCurrent(s')
  {
  }

  lemma KeyKnown(s: State, a: Action)
    requires OwnKeys(s)
    ensures !GoesAstray(s, a)
  {
  }

  lemma TrafficSettled(s: State, a: Action)
    requires Settled(s) && Enabled(s, a) && BanTraffic(s, a)
    ensures Settled(Step(s, a))
  {
    InvariantListSound(s);
    hide Invariant, OwnKeys, FlagsFollow, CallbacksCurrent, Step, Enabled, ListSound;
    StepInvariant(s, a);
    TrafficKeepsKeys(s, a);
    KeysKeptSettled(s, Step(s, a));
    KeyKnown(s, a);
    StepFlags(s, a);
  }

  lemma {:induction false} LeadsSettled(s: State, actions: seq<Action>, s': State)
    requires Settled(s) && TrafficLeads(s, actions, s')
    ensures Settled(s')
    decreases |actions|
  {
    hide Enabled, Step, Settled, BanTraffic;
    if actions != [] {
      TrafficSettled(s, actions[0]);
      LeadsSettled(Step(s, actions[0]), actions[1..], s');
    }
  }

  lemma AgreeingSettled(s: State)
    requires Reachable(s) && Quiet(s) && AllAgree(s) && OwnKeys(s)
    ensures Settled(s)
  {
    ReachableInvariant(s);
    hide Reachable, Invariant;
    forall id: PeerId ensures FlagOk(s, id) {
    }
    forall id | id in s.conns ensures CallbackCurrent(s.conns[id]) {
    }
  }

  lemma SettledAgree(s: State)
    requires Settled(s) && Quiet(s)
    ensures AllAgree(s)
  {
    hide Invariant;
    forall id | id in s.conns && s.conns[id].key != "" ensures Agrees(s, id) {
      assert AtMostOne(s, s.conns[id].key);
      assert FlagOk(s, id);
    }
  }

  // ----- and how flags come to disagree -----

  lemma TrafficNowhere(s: State)
    ensures TrafficLeads(s, [], s)
  {
  }

  lemma {:induction false} TrafficLeadsOn(s: State, actions: seq<Action>, m: State, a: Action)
    requires TrafficLeads(s, actions, m) && Enabled(m, a) && BanTraffic(m, a)
    ensures TrafficLeads(s, actions + [a], Step(m, a))
    decreases |actions|
  {
    hide Enabled, Step, BanTraffic;
    if actions == [] {
      assert TrafficLeads(Step(s, a), [], Step(s, a));
      assert ([] + [a])[1..] == [];
    } else {
      TrafficLeadsOn(Step(s, actions[0]), actions[1..], m, a);
      assert (actions + [a])[1..] == actions[1..] + [a];
    }
  }

  /** One more action of ban traffic. */
  lemma TrafficOnward(s: State, actions: seq<Action>, m: State, a: Action)
    returns (actions': seq<Action>, m': State)
    requires TrafficLeads(s, actions, m) && Enabled(m, a) && BanTraffic(m, a)
    ensures TrafficLeads(s, actions', m') && actions' == actions + [a] && m' == Step(m, a)
  {
    TrafficLeadsOn(s, actions, m, a);
    actions', m' := actions + [a], Step(m, a);
  }

  /** A ban or unban that finds the connection with `id`. */
  lemma BanFinds(s: State, id: PeerId, on: bool) returns (actions: seq<Action>, m: State)
    requires Quiet(s) && s.intake.started && id in s.conns
    ensures actions == [BanList(s.conns[id].key, on), LookAt(id)] && TrafficLeads(s, actions, m) && Quiet(m)
    ensures m.conns == s.conns[id := s.conns[id].(banned := on)] && m.intake == s.intake
    ensures m.bannedPeer == s.bannedPeer[s.conns[id].key := on]
  {
    hide TrafficLeads;
    TrafficNowhere(s);
    actions, m := TrafficOnward(s, [], s, BanList(s.conns[id].key, on));
    actions, m := TrafficOnward(s, actions, m, LookAt(id));
  }

  /** Of two connections with one key, a ban or unban of the key reaches only the one the lookup finds. */
  lemma SharedKeyDisagrees(s: State, first: PeerId, second: PeerId) returns (actions: seq<Action>, s': State)
    requires Quiet(s) && s.intake.started
    requires first in s.conns && second in s.conns && first != second
    requires s.conns[first].key == s.conns[second].key != ""
    ensures actions == [BanList(s.conns[first].key, !s.conns[second].banned), LookAt(first)]
    ensures TrafficLeads(s, actions, s') && Quiet(s') && !AllAgree(s')
  {
    hide TrafficLeads;
    actions, s' := BanFinds(s, first, !s.conns[second].banned);
    assert !Agrees(s', second);
  }

  /** The key of a connection is assigned, and its callback runs. */
  lemma KeyArrives(s: State, id: PeerId, key: Key) returns (s': State)
    requires Quiet(s) && id in s.conns && key != ""
    ensures var p := Entered(id);
            Enabled(s, SetKey(p, key)) && Enabled(Step(s, SetKey(p, key)), Recovered(p, key))
            && s' == Step(Step(s, SetKey(p, key)), Recovered(p, key))
    ensures Quiet(s') && s'.bannedPeer == s.bannedPeer && id in s'.conns && s'.conns[id].key == key
    ensures s'.conns[id].banned == (s.conns[id].banned || IsBanned(s, key))
  {
    hide RecoveredStep;
    var p := Entered(id);
    SetKeyFrame(s, p, key);
    var m := SetKeyStep(s, p, key);
    RecoveredFrame(m, p, key);
    s' := RecoveredStep(m, p, key);
  }

  /** A ban of the empty key reaches a connection without a key, and stays when its key is known. */
  lemma StrayBanDisagrees(s: State, id: PeerId, key: Key) returns (actions: seq<Action>, s': State)
    requires Quiet(s) && s.intake.started
    requires id in s.conns && s.conns[id].key == "" && key != "" && !IsBanned(s, key)
    ensures actions == [BanList("", true), LookAt(id), SetKey(Entered(id), key), Recovered(Entered(id), key)]
    ensures TrafficLeads(s, actions, s') && Quiet(s') && !AllAgree(s')
  {
    var m;
    actions, m := BanFinds(s, id, true);
    s' := KeyArrives(m, id, key);
    hide TrafficLeads, Step, Enabled;
    var last;
    actions, last := TrafficOnward(s, actions, m, SetKey(Entered(id), key));
    actions, last := TrafficOnward(s, actions, last, Recovered(Entered(id), key));
    assert !Agrees(s', id);
  }

  /**
   From a reachable quiet state of the started service, bans, unbans and keys becoming known leave
   every flag right, whenever they are done, exactly if every flag is right to begin with and every
   connection has a key of its own.
   */
  lemma BansStayRightExactly(s: State)
    requires Reachable(s) && s.intake.started && Quiet(s)
    ensures BansStayRight(s) <==> AllAgree(s) && OwnKeys(s)
  {
    hide Reachable, TrafficLeads, Enabled, Step, AllAgree, Settled;
    if AllAgree(s) && OwnKeys(s) {
      AgreeingSettled(s);
      forall actions, s' | TrafficLeads(s, actions, s') && Quiet(s') ensures AllAgree(s') {
        LeadsSettled(s, actions, s');
        SettledAgree(s');
      }
    } else if !AllAgree(s) {
      TrafficNowhere(s);
    } else if id :| id in s.conns && s.conns[id].key == "" {
      var key := FreshName(s.bannedPeer.Keys);
      var actions, s' := StrayBanDisagrees(s, id, key);
    } else {
      var i, j :| i in s.conns && j in s.conns && s.conns[i].key == s.conns[j].key && i != j;
      var actions, s' := SharedKeyDisagrees(s, i, j);
    }
  }

  // ----- what a replaced key does -----

  /** A connection is banned under its key, and then a late handler replaces the key: the ban stays. */
  lemma ReplacedKeyDisagrees(s: State, id: PeerId, key: Key) returns (actions: seq<Action>, s': State)
    requires Quiet(s) && s.intake.started && id in s.conns && s.conns[id].key != ""
    requires key != "" && key != s.conns[id].key && !IsBanned(s, key)
    ensures actions
            == [BanList(s.conns[id].key, true), LookAt(id), SetKey(Entered(id), key), Recovered(Entered(id), key)]
    ensures Leads(s, actions, s') && Quiet(s') && !AllAgree(s')
  {
    var m;
    actions, m := BanFinds(s, id, true);
    TrafficLeadsAll(s, actions, m);
    s' := KeyArrives(m, id, key);
    hide TrafficLeads, Leads, Step, Enabled, Quiet, AllAgree, IsBanned;
    var last;
    actions, last := Onward(s, actions, m, SetKey(Entered(id), key));
    actions, last := Onward(s, actions, last, Recovered(Entered(id), key));
    StillBanned(s', id);
  }

  lemma StillBanned(s: State, id: PeerId)
    requires id in s.conns && s.conns[id].key != "" && s.conns[id].banned && !IsBanned(s, s.conns[id].key)
    ensures !AllAgree(s)
  {
  }

  lemma {:induction false} TrafficLeadsAll(s: State, actions: seq<Action>, s': State)
    requires TrafficLeads(s, actions, s')
    ensures Leads(s, actions, s')
    decreases |actions|
  {
    hide Enabled, Step, BanTraffic;
    if actions != [] {
      TrafficLeadsAll(Step(s, actions[0]), actions[1..], s');
    }
  }

  /** A message is handed over under the connection's key, and then the key is replaced. */
  lemma ReplacedKeyMisplaces(s: State, id: PeerId, key: Key, env: Envelope) returns (actions: seq<Action>, s': State)
    requires Quiet(s) && s.intake.started && id in s.conns && s.conns[id].key != "" && !s.conns[id].banned
    requires key != "" && key != s.conns[id].key && env.kind != ConfirmReply && env.data.Some?
    ensures actions == [SendMessage(s.conns[id].key, env), LookAt(id), SetKey(Entered(id), key)]
    ensures Leads(s, actions, s') && s'.submitted == s.submitted + [Submission(s.conns[id].key, env)]
    ensures id in s'.conns && s'.conns[id].key == key
            && Ticket(|s.submitted|, env) in HandedTo(s', Entered(id))
  {
    hide Leads;
    LeadsNowhere(s);
    actions, s' := Onward(s, [], s, SendMessage(s.conns[id].key, env));
    actions, s' := Onward(s, actions, s', LookAt(id));
    actions, s' := Onward(s, actions, s', SetKey(Entered(id), key));
  }
}

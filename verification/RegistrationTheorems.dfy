/**
 When the numbers of connections stay right although `New` registers bootstrap peers without the
 lock: exactly when no registration is overtaken by another.
 */
module RegistrationTheorems {
  import opened Bytes
  import opened Registry
  import opened RegistryLaws
  import opened RegistryTheorems

  /** A registration has been completed late, or is bound to be. */
  predicate Spoilt(s: State) {
    s.intake.overtaken || IsLate(s.intake.boot) || IsLate(s.intake.locked)
  }

  /** `r` has found no connection for `id`, or has read the counter. */
  predicate InTheWay(r: Registration, id: PeerId) {
    r.Counted? || (r.FoundNew? && r.id == id)
  }

  /** A peer is entered while the other registration is under way for the same peer, or has read the counter. */
  predicate Crosses(s: State, a: Action) {
    || (a.Enter? && s.intake.locked.Counted? && InTheWay(s.intake.boot, s.intake.locked.id))
    || (a.BootstrapEnter? && s.intake.boot.Counted? && InTheWay(s.intake.locked, s.intake.boot.id))
  }

  lemma StepSpoils(s: State, a: Action)
    requires Registering(s) && Enabled(s, a)
    ensures Spoilt(Step(s, a)) <==> Spoilt(s) || Crosses(s, a)
  {
    if !IsConnecting(a) {
      OtherStepsSameRegistrations(s, a);
      hide Step;
    } else if OnlyIntake(a) {
      OnlyIntakeSpoils(s, a);
      hide Step;
    }
  }

  lemma OnlyIntakeSpoils(s: State, a: Action)
    requires OnlyIntake(a) && Enabled(s, a)
    ensures Spoilt(Step(s, a)) <==> Spoilt(s)
  {
  }

  /**
   A run has an overtaken registration, completed or under way, exactly if some peer was entered
   while the other registration was under way for the same peer or had read the counter.
   */
  lemma {:induction false} OvertakenExactly(ss: seq<State>, actions: seq<Action>, n: nat)
    requires IsRun(ss, actions) && n <= |actions|
    ensures Spoilt(ss[n]) <==> exists i :: 0 <= i < n && Crosses(ss[i], actions[i])
  {
    hide Enabled, Step, Spoilt, Crosses;
    if n > 0 {
      OvertakenExactly(ss, actions, n - 1);
      RunInvariant(ss, actions, n - 1);
      InvariantRegisters(ss[n - 1]);
      StepSpoils(ss[n - 1], actions[n - 1]);
    } else {
      StartNotSpoilt(ss[0].self);
    }
  }

  lemma StartNotSpoilt(self: PeerId)
    ensures !Spoilt(Start(self))
  {
  }

  // ----- what an overtaken registration does to the numbers -----

  /** Two connections have one number. */
  ghost predicate Doubled(s: State) {
    exists i, j :: i in s.conns && j in s.conns && i != j && s.conns[i].uniqId == s.conns[j].uniqId
  }

  /** A late registration will displace a connection, or take a number that one has. */
  ghost predicate Harmful(s: State, r: Registration) {
    IsLate(r) ==> r.id in s.conns || (r.Counted? && exists i :: i in s.conns && s.conns[i].uniqId == r.number)
  }

  /** Harm has been done, or is yet to be done by the registrations that are late. */
  ghost predicate HarmNoted(s: State) {
    || s.orphans != [] || Doubled(s)
    || (!s.intake.overtaken && Harmful(s, s.intake.boot) && Harmful(s, s.intake.locked))
  }

  /** No connection is displaced, and those there are keep their numbers. */
  ghost predicate NumbersKept(s: State, s': State) {
    forall i :: i in s.conns ==> i in s'.conns && s'.conns[i].uniqId == s.conns[i].uniqId
  }

  lemma DoubledStays(s: State, s': State)
    requires Doubled(s) && NumbersKept(s, s')
    ensures Doubled(s')
  {
    var i, j :| i in s.conns && j in s.conns && i != j && s.conns[i].uniqId == s.conns[j].uniqId;
    assert i in s'.conns && j in s'.conns;
  }

  lemma HarmfulStays(s: State, s': State, r: Registration)
    requires Harmful(s, r) && NumbersKept(s, s')
    ensures Harmful(s', r)
  {
    if IsLate(r) && r.id !in s.conns {
      var i :| i in s.conns && s.conns[i].uniqId == r.number;
      assert i in s'.conns;
    }
  }

  lemma AddConnNumbers(s: State, id: PeerId, n: uint32, intake: Intake)
    ensures var s' := AddConn(s, id, n).(intake := intake);
            && id in s'.conns && s'.conns[id].uniqId == n && s.orphans <= s'.orphans
            && (id in s.conns ==> s'.orphans != []) && (id !in s.conns ==> NumbersKept(s, s'))
  {
  }

  /**
   A peer is entered: harm done stays done, a late registration does some, and one in time makes
   the other harmful.
   */
  lemma EntryNotesHarm(s: State, s': State, r: Registration, other: Registration)
    requires HarmNoted(s) && r.Counted? && InTime(s, r) && InTime(s, other)
    requires s.intake.overtaken || (Harmful(s, r) && Harmful(s, other)) || s.orphans != [] || Doubled(s)
    requires s' == AddConn(s, r.id, r.number).(intake := s'.intake)
    requires s'.intake.overtaken == (s.intake.overtaken || r.late)
    ensures s'.orphans != [] || Doubled(s') || (!s'.intake.overtaken && Harmful(s', Disturbed(other, r.id)))
  {
    AddConnNumbers(s, r.id, r.number, s'.intake);
    hide AddConn;
    if r.id !in s.conns {
      if Doubled(s) {
        DoubledStays(s, s');
      } else if s.orphans == [] && r.late {
        var i :| i in s.conns && s.conns[i].uniqId == r.number;
        assert i in s'.conns && i != r.id;
      } else if s.orphans == [] {
        HarmfulStays(s, s', other);
      }
    }
  }

  lemma StepNotesHarm(s: State, a: Action)
    requires HarmNoted(s) && Registering(s) && Enabled(s, a)
    ensures HarmNoted(Step(s, a))
  {
    var s' := Step(s, a);
    if !IsConnecting(a) {
      OtherStepsSameRegistrations(s, a);
      SameHarm(s, s');
    } else if OnlyIntake(a) {
      IntakeNotesHarm(s, a);
    } else if a.Enter? {
      hide AddConn, Harmful, Doubled;
      EntryNotesHarm(s, s', s.intake.locked, s.intake.boot);
      NobodyHarmful(s');
    } else {
      hide AddConn, Harmful, Doubled;
      EntryNotesHarm(s, s', s.intake.boot, s.intake.locked);
      NobodyHarmful(s');
    }
  }

  lemma NobodyHarmful(s: State)
    ensures Harmful(s, Nobody)
  {
  }

  lemma SameHarm(s: State, s': State)
    requires HarmNoted(s) && SameRegistrations(s, s')
    ensures HarmNoted(s')
  {
    hide Harmful, Doubled;
    assert NumbersKept(s, s');
    if s.orphans == [] {
      if Doubled(s) {
        DoubledStays(s, s');
      } else {
        HarmfulStays(s, s', s.intake.boot);
        HarmfulStays(s, s', s.intake.locked);
      }
    }
  }

  lemma IntakeNotesHarm(s: State, a: Action)
    requires HarmNoted(s) && OnlyIntake(a) && Enabled(s, a)
    ensures HarmNoted(Step(s, a))
  {
    OnlyIntakeFrame(s, a);
    var s' := Step(s, a);
    if s.orphans == [] {
      if Doubled(s) {
        DoubledStays(s, s');
      } else {
        IntakeHarmful(s, a);
      }
    }
  }

  lemma IntakeHarmful(s: State, a: Action)
    requires OnlyIntake(a) && Enabled(s, a) && Harmful(s, s.intake.boot) && Harmful(s, s.intake.locked)
    ensures Harmful(Step(s, a), Step(s, a).intake.boot) && Harmful(Step(s, a), Step(s, a).intake.locked)
  {
  }

  lemma {:induction false} RunNotesHarm(ss: seq<State>, actions: seq<Action>, n: nat)
    requires IsRun(ss, actions) && n <= |actions|
    ensures HarmNoted(ss[n])
  {
    hide Enabled, Step, HarmNoted;
    if n > 0 {
      RunNotesHarm(ss, actions, n - 1);
      RunInvariant(ss, actions, n - 1);
      InvariantRegisters(ss[n - 1]);
      StepNotesHarm(ss[n - 1], actions[n - 1]);
    } else {
      StartNotesHarm(ss[0].self);
    }
  }

  lemma StartNotesHarm(self: PeerId)
    ensures HarmNoted(Start(self))
  {
  }

  lemma DoubledNotBijective(s: State)
    requires Doubled(s)
    ensures !Bijective(s)
  {
    var i, j :| i in s.conns && j in s.conns && i != j && s.conns[i].uniqId == s.conns[j].uniqId;
    assert !(ConnOk(s, i) && ConnOk(s, j));
  }

  lemma NotOvertakenSound(s: State)
    requires Invariant(s) && !s.intake.overtaken && |s.conns| <= TWO_32
    ensures Bijective(s) && s.orphans == []
  {
    InvariantRegisters(s);
    hide Invariant, Bijective;
  }

  /**
   Between registrations, with at most 2^32 connections: the numbers are right and no connection has
   been lost, exactly if in the run so far no peer was entered while the other registration was under
   way for the same peer or had read the counter.
   */
  lemma NumbersRightExactly(ss: seq<State>, actions: seq<Action>, n: nat)
    requires IsRun(ss, actions) && n <= |actions|
    requires ss[n].intake.boot.Nobody? && ss[n].intake.locked.Nobody? && |ss[n].conns| <= TWO_32
    ensures Bijective(ss[n]) && ss[n].orphans == [] <==> forall i :: 0 <= i < n ==> !Crosses(ss[i], actions[i])
  {
    var s := ss[n];
    OvertakenExactly(ss, actions, n);
    RunInvariant(ss, actions, n);
    RunNotesHarm(ss, actions, n);
    hide Enabled, Step, Crosses, Invariant, Bijective, Doubled, Harmful, IsRun;
    if s.intake.overtaken {
      if Doubled(s) {
        DoubledNotBijective(s);
      }
    } else {
      NotOvertakenSound(s);
    }
  }

  // ----- a registration that is overtaken -----

  /** An inbound stream, or an entry of a peer list, for a peer without a connection: from beginning to end. */
  lemma Serve(s: State, id: PeerId, a: Action) returns (actions: seq<Action>, m: State)
    requires a == OnConnect(id) || (a == ListedPeer(id) && id != s.self)
    requires LockFree(s) && id !in s.conns
    ensures actions == [a, Count, Enter] && Leads(s, actions, m)
    ensures m == AddConn(s, id, s.totalPeers).(intake := s.intake.(boot := Disturbed(s.intake.boot, id)))
  {
    hide Leads, AddConn;
    LeadsNowhere(s);
    actions, m := Onward(s, [], s, a);
    actions, m := Onward(s, actions, m, Count);
    actions, m := Onward(s, actions, m, Enter);
    AddConnIntake(s, id, s.intake.(locked := Counted(id, s.totalPeers, false)));
  }

  /** A bootstrap peer without a connection, while nothing else is registered. */
  lemma ServeBootstrap(s: State, id: PeerId) returns (actions: seq<Action>, m: State)
    requires !s.intake.started && s.intake.boot.Nobody? && s.intake.locked.Nobody?
    requires id != s.self && id !in s.conns
    ensures actions == [Bootstrap(id), BootstrapCount, BootstrapEnter] && Leads(s, actions, m)
    ensures m == AddConn(s, id, s.totalPeers)
  {
    hide Leads, AddConn;
    LeadsNowhere(s);
    actions, m := Onward(s, [], s, Bootstrap(id));
    actions, m := Onward(s, actions, m, BootstrapCount);
    actions, m := Onward(s, actions, m, BootstrapEnter);
    AddConnIntake(s, id, s.intake.(boot := Counted(id, s.totalPeers, false)));
    AddConnIntake(s, id, s.intake);
  }

  /** What a registration does to the rest does not depend on how far registrations have got. */
  lemma AddConnIntake(s: State, id: PeerId, intake: Intake)
    requires id !in s.conns
    ensures var m := AddConn(s.(intake := intake), id, s.totalPeers);
            m == AddConn(s, id, s.totalPeers).(intake := intake)
  {
  }

  /** `New` goes on with a peer that has got a connection meanwhile. */
  lemma GoOnLate(s: State, m: State, id: PeerId, before: seq<Action>) returns (actions: seq<Action>, s': State)
    requires Leads(s, before, m) && m.intake.boot == FoundNew(id, true)
    requires id in m.conns && m.conns[id].uniqId != m.totalPeers
    requires m.conns[id].uniqId in m.peerIds && m.peerIds[m.conns[id].uniqId] == id
    ensures actions == before + [BootstrapCount, BootstrapEnter] && Leads(s, actions, s')
    ensures s'.conns.Keys == m.conns.Keys && !NumberOk(s', m.conns[id].uniqId)
    ensures s'.orphans == m.orphans + [m.conns[id]]
  {
    hide Leads;
    actions, s' := Onward(s, before, m, BootstrapCount);
    actions, s' := Onward(s, actions, s', BootstrapEnter);
    var u := m.conns[id].uniqId;
    assert s'.peerIds[u] == id && s'.conns[id].uniqId == m.totalPeers;
  }

  /**
   An inbound stream of a peer that `New` has just found to have no connection is served, and
   then `New` goes on: the peer gets two numbers, and its first connection is lost.
   */
  lemma SamePeerTwice(s: State, id: PeerId) returns (actions: seq<Action>, s': State)
    requires Reachable(s) && !s.intake.overtaken && LockFree(s) && s.intake.boot == FoundNew(id, false)
    requires |s.conns| + 2 <= TWO_32
    ensures actions == [OnConnect(id), Count, Enter, BootstrapCount, BootstrapEnter] && Leads(s, actions, s')
    ensures |s'.conns| == |s.conns| + 1 && !Bijective(s')
    ensures s'.orphans == s.orphans + [NewConn(s.totalPeers)]
  {
    var n := s.totalPeers;
    assert n == |s.conns| && id !in s.conns by {
      CounterIs(s);
    }
    hide Leads, Reachable;
    var m;
    actions, m := Serve(s, id, OnConnect(id));
    OneMore(s, id);
    actions, s' := GoOnLate(s, m, id, actions);
    SameSize(s'.conns, m.conns);
    assert !NumberOk(s', n);
  }

  /** A stream of another peer is served after `New` has read the counter: the two share a number. */
  lemma TwoPeersOneNumber(s: State, id: PeerId, other: PeerId) returns (actions: seq<Action>, s': State)
    requires Registering(s) && LockFree(s) && s.intake.boot == Counted(id, s.totalPeers, false)
    requires other != id && other !in s.conns
    ensures actions == [OnConnect(other), Count, Enter, BootstrapEnter] && Leads(s, actions, s')
    ensures s'.conns.Keys == s.conns.Keys + {id, other} && s'.conns[id].uniqId == s'.conns[other].uniqId
    ensures !Bijective(s')
  {
    hide Leads;
    var m;
    actions, m := Serve(s, other, OnConnect(other));
    actions, s' := Onward(s, actions, m, BootstrapEnter);
    assert s'.peerIds[s.totalPeers] == id;
    assert !ConnOk(s', other);
  }

  lemma CounterIs(s: State)
    requires Reachable(s) && !s.intake.overtaken && |s.conns| < TWO_32
    ensures s.totalPeers == |s.conns| && InTime(s, s.intake.boot)
  {
    hide Reachable, Invariant;
    ReachableInvariant(s);
    InvariantRegisters(s);
  }

  lemma SameSize(m: map<PeerId, Conn>, n: map<PeerId, Conn>)
    requires m.Keys == n.Keys
    ensures |m| == |n|
  {
    assert |m| == |m.Keys| && |n| == |n.Keys|;
  }

  /** Numbers and connections match as far as 32 bits reach, whatever happens from `s` on. */
  ghost predicate NumbersStay(s: State) {
    forall actions, s' :: Leads(s, actions, s') ==> (Bijective(s') <==> |s'.conns| <= TWO_32)
  }

  predicate NoBootstrap(s: State) {
    Registering(s) && s.intake.started && !Spoilt(s)
  }

  lemma {:induction false} LeadsNoBootstrap(s: State, actions: seq<Action>, s': State)
    requires NoBootstrap(s) && Leads(s, actions, s')
    ensures NoBootstrap(s')
    decreases |actions|
  {
    hide Enabled, Step;
    if actions != [] {
      StartedStays(s, actions[0]);
      LeadsNoBootstrap(Step(s, actions[0]), actions[1..], s');
    }
  }

  lemma StartedStays(s: State, a: Action)
    requires NoBootstrap(s) && Enabled(s, a)
    ensures NoBootstrap(Step(s, a))
  {
    StepRegisters(s, a);
    StepSpoils(s, a);
    if !IsConnecting(a) {
      OtherStepsSameRegistrations(s, a);
      hide Step;
    }
  }

  /**
   From a reachable state in which nothing was overtaken and no registration is under way, the
   numbers stay right over every continuation exactly if `New` has returned.
   */
  lemma NumbersStayExactly(s: State)
    requires Reachable(s) && !s.intake.overtaken && LockFree(s) && s.intake.boot.Nobody?
    requires |s.conns| + 2 <= TWO_32
    ensures NumbersStay(s) <==> s.intake.started
  {
    hide Reachable, Leads, Bijective, Invariant;
    ReachableInvariant(s);
    InvariantRegisters(s);
    if s.intake.started {
      forall actions, s' | Leads(s, actions, s') ensures Bijective(s') <==> |s'.conns| <= TWO_32 {
        LeadsNoBootstrap(s, actions, s');
        LeadsReachable(s, actions, s');
        NumbersMatchConnections(s');
      }
    } else {
      var id := FreshName(s.conns.Keys + {s.self});
      StepReachable(s, Bootstrap(id));
      var m := Step(s, Bootstrap(id));
      var actions, s' := SamePeerTwice(m, id);
      LeadsFirst(s, Bootstrap(id), actions, s');
    }
  }

  lemma LeadsFirst(s: State, a: Action, actions: seq<Action>, s': State)
    requires Enabled(s, a) && Leads(Step(s, a), actions, s')
    ensures Leads(s, [a] + actions, s')
  {
    hide Enabled, Step;
    assert ([a] + actions)[1..] == actions;
  }
}

/**
 The status word and the public key of a connection, changed by several goroutines through
 single loads, stores and compare-and-swaps that may interleave in any way
 (peer_service/connection/connection.go:453-536, 616-667, 766-768).
 */
module Status {

  datatype Status = NotConnected | JustConnected | HandshakeComplete | Terminated

  /** A public key in hexadecimal; the empty string before one is known. */
  type Key = string

  type Thread = int

  /** The single steps of the routines below. */
  datatype Instruction =
    | StopIfTerminated
    | Validate(key: Key)           // stop if another key is already set
    | StopIfKeySet
    | Assign(key: Key)
    | Cas(from: Status, to: Status)
    | StoreTerminated

  /** A signature that recovers to `key`. */
  function SignatureRoutine(key: Key): seq<Instruction> {
    [StopIfTerminated, Validate(key), Assign(key),
     Cas(NotConnected, HandshakeComplete), Cas(JustConnected, HandshakeComplete)]
  }

  /** A key set from outside: validated in its canonical spelling, stored as it was given. */
  function OutsideKeyRoutine(given: Key, canonical: Key): seq<Instruction> {
    [StopIfTerminated, Validate(canonical), StopIfKeySet, Assign(given),
     Cas(NotConnected, HandshakeComplete), Cas(JustConnected, HandshakeComplete)]
  }

  const SET_INBOUND_STREAM: seq<Instruction> :=
    [StopIfTerminated, Cas(NotConnected, JustConnected), Cas(HandshakeComplete, JustConnected)]

  /** The part of checkOutboundStream that has got a new stream. */
  const NEW_OUTBOUND_STREAM: seq<Instruction> :=
    [Cas(NotConnected, JustConnected), Cas(HandshakeComplete, JustConnected)]

  const TERMINATE: seq<Instruction> := [StoreTerminated]

  /** The routines that touch the status or the key; keys are never empty. */
  ghost predicate IsRoutine(program: seq<Instruction>) {
    || (exists key: Key :: key != "" && program == SignatureRoutine(key))
    || (exists given: Key, canonical: Key :: given != "" && canonical != ""
                                             && program == OutsideKeyRoutine(given, canonical))
    || program == SET_INBOUND_STREAM || program == NEW_OUTBOUND_STREAM || program == TERMINATE
  }

  datatype State = State(
    status: Status,
    key: Key,
    programs: map<Thread, seq<Instruction>>)   // what each goroutine still has to do

  function Start(): State {
    State(NotConnected, "", map[])
  }

  function ProgramOf(s: State, t: Thread): seq<Instruction> {
    if t in s.programs then s.programs[t] else []
  }

  /** Thread `t` goes on after its first instruction, or stops. */
  function Goto(s: State, t: Thread, on: bool): State
    requires ProgramOf(s, t) != []
  {
    s.(programs := s.programs[t := if on then ProgramOf(s, t)[1..] else []])
  }

  function Execute(s: State, t: Thread): State
    requires ProgramOf(s, t) != []
  {
    match ProgramOf(s, t)[0]
    case StopIfTerminated => Goto(s, t, s.status != Terminated)
    case Validate(key) => Goto(s, t, s.key == "" || s.key == key)
    case StopIfKeySet => Goto(s, t, s.key == "")
    case Assign(key) => Goto(s, t, true).(key := key)
    case Cas(from, to) => Goto(s, t, true).(status := if s.status == from then to else s.status)
    case StoreTerminated => Goto(s, t, true).(status := Terminated)
  }

  /** A goroutine starts a routine, or executes its next instruction. */
  ghost predicate Next(s: State, s': State) {
    || (exists t: Thread, program :: ProgramOf(s, t) == [] && IsRoutine(program)
                                     && s' == s.(programs := s.programs[t := program]))
    || (exists t: Thread :: ProgramOf(s, t) != [] && s' == Execute(s, t))
  }

  ghost predicate IsRun(ss: seq<State>) {
    ss != [] && ss[0] == Start() && forall i :: 0 <= i < |ss| - 1 ==> Next(ss[i], ss[i + 1])
  }

  // ----- the invariant -----

  /** Swaps never start from Terminated nor lead to NotConnected or Terminated; keys are not empty. */
  predicate Harmless(program: seq<Instruction>) {
    forall i :: 0 <= i < |program| ==>
      match program[i]
      case Cas(from, to) => from != Terminated && (to == JustConnected || to == HandshakeComplete)
      case Assign(key) => key != ""
      case _ => true
  }

  /** The program will complete a handshake without assigning a key first. */
  predicate Armed(program: seq<Instruction>) {
    program != [] && !program[0].Assign?
    && ((program[0].Cas? && program[0].to == HandshakeComplete) || Armed(program[1..]))
  }

  ghost predicate KeyBeforeHandshake(s: State) {
    && (s.status == HandshakeComplete ==> s.key != "")
    && (forall t :: Harmless(ProgramOf(s, t)))
    && (forall t :: Armed(ProgramOf(s, t)) ==> s.key != "")
  }

  lemma RoutinesHarmless(program: seq<Instruction>)
    requires IsRoutine(program)
    ensures Harmless(program) && !Armed(program)
  {
    if key: Key :| key != "" && program == SignatureRoutine(key) {
      UnarmedSignature(key);
    } else if given: Key, canonical: Key :| given != "" && canonical != ""
                                            && program == OutsideKeyRoutine(given, canonical) {
      UnarmedTrySet(given, canonical);
    } else {
      UnarmedOthers();
    }
  }

  lemma UnarmedSignature(key: Key)
    ensures !Armed(SignatureRoutine(key))
  {
    var p := SignatureRoutine(key);
    assert !Armed(p[1..][1..]);
    assert !Armed(p[1..]);
  }

  lemma UnarmedTrySet(given: Key, canonical: Key)
    ensures !Armed(OutsideKeyRoutine(given, canonical))
  {
    var p := OutsideKeyRoutine(given, canonical);
    assert !Armed(p[1..][1..][1..]);
    assert !Armed(p[1..][1..]);
    assert !Armed(p[1..]);
  }

  lemma UnarmedOthers()
    ensures !Armed(SET_INBOUND_STREAM) && !Armed(NEW_OUTBOUND_STREAM) && !Armed(TERMINATE)
  {
    var p := SET_INBOUND_STREAM;
    assert !Armed(p[1..][1..][1..]);
    assert !Armed(p[1..][1..]);
    assert !Armed(p[1..]);
    var q := NEW_OUTBOUND_STREAM;
    assert !Armed(q[1..][1..]);
    assert !Armed(q[1..]);
    assert !Armed(TERMINATE[1..]);
  }

  lemma ExecuteKeepsKeyBeforeHandshake(s: State, t: Thread)
    requires KeyBeforeHandshake(s) && ProgramOf(s, t) != []
    ensures KeyBeforeHandshake(Execute(s, t))
  {
    var s' := Execute(s, t);
    var p := ProgramOf(s, t);
    assert Harmless(p) && (Armed(p) ==> s.key != "");
    forall u ensures Harmless(ProgramOf(s', u)) && (Armed(ProgramOf(s', u)) ==> s'.key != "") {
      assert Harmless(ProgramOf(s, u)) && (Armed(ProgramOf(s, u)) ==> s.key != "");
      if u == t {
        var q := ProgramOf(s', t);
        assert q == p[1..] || q == [];
      }
    }
  }

  lemma NextKeepsKeyBeforeHandshake(s: State, s': State)
    requires KeyBeforeHandshake(s) && Next(s, s')
    ensures KeyBeforeHandshake(s')
  {
    if t: Thread, program :| ProgramOf(s, t) == [] && IsRoutine(program)
                             && s' == s.(programs := s.programs[t := program]) {
      RoutinesHarmless(program);
      forall u ensures Harmless(ProgramOf(s', u)) && (Armed(ProgramOf(s', u)) ==> s'.key != "") {
        assert Harmless(ProgramOf(s, u)) && (Armed(ProgramOf(s, u)) ==> s.key != "");
      }
    } else {
      var t: Thread :| ProgramOf(s, t) != [] && s' == Execute(s, t);
      ExecuteKeepsKeyBeforeHandshake(s, t);
    }
  }

  lemma {:induction false} RunKeyBeforeHandshake(ss: seq<State>, i: nat)
    requires IsRun(ss) && i < |ss|
    ensures KeyBeforeHandshake(ss[i])
  {
    hide Next;
    if i > 0 {
      RunKeyBeforeHandshake(ss, i - 1);
      NextKeepsKeyBeforeHandshake(ss[i - 1], ss[i]);
    }
  }

  /** One step never leaves Terminated and never enters NotConnected. */
  lemma NextStatus(s: State, s': State)
    requires KeyBeforeHandshake(s) && Next(s, s')
    ensures s.status == Terminated ==> s'.status == Terminated
    ensures s'.status == NotConnected ==> s.status == NotConnected
    ensures s.key != "" ==> s'.key != ""
  {
    hide IsRoutine;
    if t: Thread :| ProgramOf(s, t) != [] && s' == Execute(s, t) {
      assert Harmless(ProgramOf(s, t));
    }
  }

  /**
   Over every interleaving: Terminated is never left, NotConnected is never entered again,
   and a completed handshake means a public key.
   */
  lemma {:induction false} StatusOverRun(ss: seq<State>, i: nat, j: nat)
    requires IsRun(ss) && i <= j < |ss|
    ensures ss[i].status == Terminated ==> ss[j].status == Terminated
    ensures ss[j].status == NotConnected ==> ss[i].status == NotConnected
    ensures ss[j].status == HandshakeComplete ==> ss[j].key != ""
    ensures ss[i].key != "" ==> ss[j].key != ""
    decreases j
  {
    hide Next, KeyBeforeHandshake;
    RunKeyBeforeHandshake(ss, j);
    HandshakeHasKey(ss[j]);
    if i < j {
      StatusOverRun(ss, i, j - 1);
      RunKeyBeforeHandshake(ss, j - 1);
      NextStatus(ss[j - 1], ss[j]);
    }
  }

  lemma HandshakeHasKey(s: State)
    requires KeyBeforeHandshake(s)
    ensures s.status == HandshakeComplete ==> s.key != ""
  {
  }

  // ----- the key itself: stable if each handler validates and assigns in one step -----

  predicate TouchesKey(i: Instruction) {
    i.Validate? || i.StopIfKeySet? || i.Assign?
  }

  /** Thread `t` runs its validation and assignment to the end, undisturbed. */
  function KeyPart(s: State, t: Thread): State
    decreases |ProgramOf(s, t)|
  {
    var p := ProgramOf(s, t);
    if p != [] && TouchesKey(p[0]) then KeyPart(Execute(s, t), t) else s
  }

  /** As `Next`, but with the key part of a handler as one step. */
  ghost predicate CoarseNext(s: State, s': State) {
    || (exists t: Thread, program :: ProgramOf(s, t) == [] && IsRoutine(program)
                                     && s' == s.(programs := s.programs[t := program]))
    || (exists t: Thread :: ProgramOf(s, t) != []
                            && s' == if TouchesKey(ProgramOf(s, t)[0]) then KeyPart(s, t) else Execute(s, t))
  }

  ghost predicate IsCoarseRun(ss: seq<State>) {
    ss != [] && ss[0] == Start() && forall i :: 0 <= i < |ss| - 1 ==> CoarseNext(ss[i], ss[i + 1])
  }

  /** Each assignment follows its own validation, or the check that no key is set. */
  predicate Guarded(program: seq<Instruction>) {
    forall i :: 1 <= i < |program| && program[i].Assign? ==>
      program[i - 1] == Validate(program[i].key) || program[i - 1] == StopIfKeySet
  }

  predicate AtAssign(program: seq<Instruction>) {
    program != [] && program[0].Assign?
  }

  ghost predicate AllGuarded(s: State) {
    forall t :: Guarded(ProgramOf(s, t)) && !AtAssign(ProgramOf(s, t))
  }

  lemma RoutinesGuarded(program: seq<Instruction>)
    requires IsRoutine(program)
    ensures Guarded(program) && !AtAssign(program)
  {
  }

  lemma GuardedTail(program: seq<Instruction>)
    requires program != [] && Guarded(program)
    ensures Guarded(program[1..])
  {
  }

  lemma {:induction false} KeyPartStable(s: State, t: Thread)
    requires Guarded(ProgramOf(s, t))
    requires AtAssign(ProgramOf(s, t)) ==> s.key == "" || s.key == ProgramOf(s, t)[0].key
    ensures var s' := KeyPart(s, t);
            && (s.key != "" ==> s'.key == s.key)
            && Guarded(ProgramOf(s', t)) && !AtAssign(ProgramOf(s', t))
            && (forall u :: u != t ==> ProgramOf(s', u) == ProgramOf(s, u))
    decreases |ProgramOf(s, t)|
  {
    var p := ProgramOf(s, t);
    if p != [] && TouchesKey(p[0]) {
      GuardedTail(p);
      var m := Execute(s, t);
      assert ProgramOf(m, t) == p[1..] || ProgramOf(m, t) == [];
      KeyPartStable(m, t);
    }
  }

  lemma CoarseStep(s: State, s': State)
    requires AllGuarded(s) && CoarseNext(s, s')
    ensures AllGuarded(s') && (s.key != "" ==> s'.key == s.key)
  {
    hide IsRoutine;
    if t: Thread, program :| ProgramOf(s, t) == [] && IsRoutine(program)
                             && s' == s.(programs := s.programs[t := program]) {
      RoutinesGuarded(program);
      forall u ensures Guarded(ProgramOf(s', u)) && !AtAssign(ProgramOf(s', u)) {
        assert Guarded(ProgramOf(s, u)) && !AtAssign(ProgramOf(s, u));
      }
    } else {
      var t: Thread :| ProgramOf(s, t) != []
                       && s' == if TouchesKey(ProgramOf(s, t)[0]) then KeyPart(s, t) else Execute(s, t);
      var p := ProgramOf(s, t);
      assert Guarded(p) && !AtAssign(p);
      GuardedTail(p);
      KeyPartStable(s, t);
      forall u ensures Guarded(ProgramOf(s', u)) && !AtAssign(ProgramOf(s', u)) {
        assert Guarded(ProgramOf(s, u)) && !AtAssign(ProgramOf(s, u));
      }
    }
  }

  lemma {:induction false} CoarseRunGuarded(ss: seq<State>, i: nat)
    requires IsCoarseRun(ss) && i < |ss|
    ensures AllGuarded(ss[i])
  {
    hide CoarseNext;
    if i > 0 {
      CoarseRunGuarded(ss, i - 1);
      CoarseStep(ss[i - 1], ss[i]);
    }
  }

  /** With each handler's key part as one step, a key once set never changes. */
  lemma {:induction false} KeyNeverChanges(ss: seq<State>, i: nat, j: nat)
    requires IsCoarseRun(ss) && i <= j < |ss| && ss[i].key != ""
    ensures ss[j].key == ss[i].key
    decreases j
  {
    hide CoarseNext, AllGuarded;
    if i < j {
      KeyNeverChanges(ss, i, j - 1);
      CoarseRunGuarded(ss, j - 1);
      CoarseStep(ss[j - 1], ss[j]);
    }
  }

  // ----- and in any interleaving of the single steps -----

  /** The program assigns only keys in `keys`. */
  predicate AssignsWithin(program: seq<Instruction>, keys: set<Key>) {
    forall i :: 0 <= i < |program| && program[i].Assign? ==> program[i].key in keys
  }

  ghost predicate Within(s: State, keys: set<Key>) {
    forall t :: AssignsWithin(ProgramOf(s, t), keys)
  }

  /** A run in which the handlers started assign only keys in `keys`. */
  ghost predicate IsRunWithin(ss: seq<State>, keys: set<Key>) {
    IsRun(ss) && forall i :: 0 <= i < |ss| ==> Within(ss[i], keys)
  }

  /** A key once set never changes over the run. */
  ghost predicate KeyStable(ss: seq<State>) {
    forall i, j :: 0 <= i <= j < |ss| && ss[i].key != "" ==> ss[j].key == ss[i].key
  }

  lemma NextWithin(s: State, s': State, keys: set<Key>)
    requires Next(s, s') && Within(s, keys)
    ensures s'.key == s.key || s'.key in keys
  {
    hide IsRoutine;
    if t: Thread :| ProgramOf(s, t) != [] && s' == Execute(s, t) {
      assert AssignsWithin(ProgramOf(s, t), keys);
    }
  }

  lemma {:induction false} KeyWithin(ss: seq<State>, keys: set<Key>, i: nat)
    requires IsRunWithin(ss, keys) && i < |ss|
    ensures ss[i].key == "" || ss[i].key in keys
  {
    hide Next, Within;
    if i > 0 {
      KeyWithin(ss, keys, i - 1);
      NextWithin(ss[i - 1], ss[i], keys);
    }
  }

  lemma {:induction false} NeverUnset(ss: seq<State>, i: nat, j: nat)
    requires IsRun(ss) && i <= j < |ss|
    ensures ss[i].key != "" ==> ss[j].key != ""
  {
    StatusOverRun(ss, i, j);
  }

  /** Handlers that all assign the same key never change it. */
  lemma OneKeyStable(ss: seq<State>, keys: set<Key>)
    requires IsRunWithin(ss, keys)
    requires forall a, b :: a in keys && b in keys ==> a == b
    ensures KeyStable(ss)
  {
    forall i, j | 0 <= i <= j < |ss| && ss[i].key != "" ensures ss[j].key == ss[i].key {
      KeyWithin(ss, keys, i);
      KeyWithin(ss, keys, j);
      NeverUnset(ss, i, j);
    }
  }

  lemma RunGrows(ss: seq<State>, s: State, keys: set<Key>) returns (ss': seq<State>)
    requires IsRunWithin(ss, keys) && Next(ss[|ss| - 1], s) && Within(s, keys)
    ensures IsRunWithin(ss', keys) && ss' == ss + [s]
  {
    hide Next, Within;
    ss' := ss + [s];
    assert ss'[0] == ss[0];
    forall i | 0 <= i < |ss'| - 1 ensures Next(ss'[i], ss'[i + 1]) {
      if i < |ss| - 1 {
        assert Next(ss[i], ss[i + 1]);
      }
    }
  }

  lemma Begin(ss: seq<State>, t: Thread, program: seq<Instruction>, keys: set<Key>) returns (ss': seq<State>)
    requires IsRunWithin(ss, keys) && ProgramOf(ss[|ss| - 1], t) == []
    requires IsRoutine(program) && AssignsWithin(program, keys)
    ensures IsRunWithin(ss', keys)
    ensures ss' == ss + [ss[|ss| - 1].(programs := ss[|ss| - 1].programs[t := program])]
  {
    var s := ss[|ss| - 1];
    var s' := s.(programs := s.programs[t := program]);
    forall u ensures AssignsWithin(ProgramOf(s', u), keys) {
      assert AssignsWithin(ProgramOf(s, u), keys);
    }
    ss' := RunGrows(ss, s', keys);
  }

  /** What is left of a program after one of its instructions assigns no other keys. */
  lemma RestWithin(s: State, t: Thread, u: Thread, keys: set<Key>)
    requires ProgramOf(s, t) != [] && AssignsWithin(ProgramOf(s, u), keys)
    ensures AssignsWithin(ProgramOf(Execute(s, t), u), keys)
  {
    var p, q := ProgramOf(s, u), ProgramOf(Execute(s, t), u);
    assert q == p || q == p[1..] || q == [];
    assert p != [] ==> forall i :: 0 <= i < |p[1..]| ==> p[1..][i] == p[i + 1];
  }

  lemma Advance(ss: seq<State>, t: Thread, keys: set<Key>) returns (ss': seq<State>)
    requires IsRunWithin(ss, keys) && ProgramOf(ss[|ss| - 1], t) != []
    ensures IsRunWithin(ss', keys) && ss' == ss + [Execute(ss[|ss| - 1], t)]
  {
    var s := ss[|ss| - 1];
    var s' := Execute(s, t);
    forall u ensures AssignsWithin(ProgramOf(s', u), keys) {
      RestWithin(s, t, u, keys);
    }
    hide Execute, AssignsWithin;
    ss' := RunGrows(ss, s', keys);
  }

  lemma StartRun(keys: set<Key>) returns (ss: seq<State>)
    ensures IsRunWithin(ss, keys) && ss == [Start()]
  {
    ss := [Start()];
  }

  /** A key set from outside has passed all its checks. */
  lemma OutsideKeyChecked(key: Key, keys: set<Key>) returns (ss: seq<State>)
    requires key != "" && key in keys
    ensures IsRunWithin(ss, keys)
    ensures var s := ss[|ss| - 1];
            s.key == "" && s.status == NotConnected
            && s.programs == map[0 := OutsideKeyRoutine(key, key)[1..][1..][1..]]
  {
    hide Next;
    assert IsRoutine(OutsideKeyRoutine(key, key));
    hide IsRoutine, IsRunWithin;
    ss := StartRun(keys);
    ss := Begin(ss, 0, OutsideKeyRoutine(key, key), keys);
    ss := Advance(ss, 0, keys);
    ss := Advance(ss, 0, keys);
    ss := Advance(ss, 0, keys);
  }

  /**
   With the single steps interleaved any key can be replaced by any other: the second, set from
   outside, passes its checks, a signature sets the first, and the assignment from outside
   overwrites it.
   */
  lemma KeyCanChange(first: Key, second: Key) returns (ss: seq<State>, i: nat)
    requires first != "" && second != ""
    ensures IsRunWithin(ss, {first, second}) && i + 1 < |ss|
    ensures ss[i].key == first && ss[i + 1].key == second
  {
    hide Next;
    var keys := {first, second};
    assert IsRoutine(SignatureRoutine(first));
    hide IsRoutine, IsRunWithin;
    ss := OutsideKeyChecked(second, keys);
    ss := Begin(ss, 1, SignatureRoutine(first), keys);
    ss := Advance(ss, 1, keys);
    ss := Advance(ss, 1, keys);
    ss := Advance(ss, 1, keys);
    i := |ss| - 1;
    ss := Advance(ss, 0, keys);
  }

  lemma FewerKeys(ss: seq<State>, few: set<Key>, keys: set<Key>)
    requires IsRunWithin(ss, few) && few <= keys
    ensures IsRunWithin(ss, keys)
  {
    hide IsRun;
    forall i | 0 <= i < |ss| ensures Within(ss[i], keys) {
      assert Within(ss[i], few);
      forall t ensures AssignsWithin(ProgramOf(ss[i], t), keys) {
        assert AssignsWithin(ProgramOf(ss[i], t), few);
      }
    }
  }

  lemma Unstable(ss: seq<State>, i: nat)
    requires i + 1 < |ss| && ss[i].key != "" && ss[i + 1].key != ss[i].key
    ensures !KeyStable(ss)
  {
  }

  /**
   Over every interleaving of the single steps: the key is stable in every run whose handlers
   assign keys from a given set, exactly if the set has no two different keys.
   */
  lemma KeyStableExactly(keys: set<Key>)
    requires "" !in keys
    ensures (forall ss :: IsRunWithin(ss, keys) ==> KeyStable(ss))
            <==> (forall a, b :: a in keys && b in keys ==> a == b)
  {
    hide IsRunWithin, KeyStable;
    if a, b :| a in keys && b in keys && a != b {
      var ss, i := KeyCanChange(a, b);
      FewerKeys(ss, {a, b}, keys);
      Unstable(ss, i);
    } else {
      forall ss | IsRunWithin(ss, keys) ensures KeyStable(ss) {
        OneKeyStable(ss, keys);
      }
    }
  }

  // ----- a routine by itself -----

  /** What a routine makes of status and key when nothing interferes. */
  function Perform(program: seq<Instruction>, status: Status, key: Key): (Status, Key)
    decreases |program|
  {
    if program == [] then (status, key)
    else
      var rest := program[1..];
      match program[0]
      case StopIfTerminated => if status == Terminated then (status, key) else Perform(rest, status, key)
      case Validate(k) => if key == "" || key == k then Perform(rest, status, key) else (status, key)
      case StopIfKeySet => if key == "" then Perform(rest, status, key) else (status, key)
      case Assign(k) => Perform(rest, status, k)
      case Cas(from, to) => Perform(rest, if status == from then to else status, key)
      case StoreTerminated => Perform(rest, Terminated, key)
  }

  /** Thread `t` runs to its end while all others stand still. */
  function RunAlone(s: State, t: Thread): State
    decreases |ProgramOf(s, t)|
  {
    if ProgramOf(s, t) == [] then s else RunAlone(Execute(s, t), t)
  }

  lemma {:induction false} AloneIsPerform(s: State, t: Thread)
    ensures var s' := RunAlone(s, t);
            (s'.status, s'.key) == Perform(ProgramOf(s, t), s.status, s.key)
    decreases |ProgramOf(s, t)|
  {
    if ProgramOf(s, t) != [] {
      AloneIsPerform(Execute(s, t), t);
    }
  }

  /** The two swaps at the end of a handshake. */
  function Completed(status: Status): Status {
    if status == NotConnected || status == JustConnected then HandshakeComplete else status
  }

  lemma PerformSwaps(status: Status, key: Key)
    ensures Perform([Cas(NotConnected, HandshakeComplete), Cas(JustConnected, HandshakeComplete)], status, key)
            == (Completed(status), key)
  {
    var p := [Cas(NotConnected, HandshakeComplete), Cas(JustConnected, HandshakeComplete)];
    assert p[1..] == [Cas(JustConnected, HandshakeComplete)] && p[1..][1..] == [];
  }

  lemma PerformSignature(key: Key, status: Status, old_: Key)
    ensures Perform(SignatureRoutine(key), status, old_)
            == if status == Terminated || (old_ != "" && old_ != key) then (status, old_) else (Completed(status), key)
  {
    var p := SignatureRoutine(key);
    PerformSwaps(status, key);
    assert p[1..][1..][1..] == [Cas(NotConnected, HandshakeComplete), Cas(JustConnected, HandshakeComplete)];
    assert Perform(p[1..][1..], status, old_) == Perform(p[1..][1..][1..], status, key);
  }

  lemma PerformOutsideKey(given: Key, canonical: Key, status: Status, old_: Key)
    ensures Perform(OutsideKeyRoutine(given, canonical), status, old_)
            == if status == Terminated || old_ != "" then (status, old_) else (Completed(status), given)
  {
    var p := OutsideKeyRoutine(given, canonical);
    PerformSwaps(status, given);
    assert p[1..][1..][1..][1..] == [Cas(NotConnected, HandshakeComplete), Cas(JustConnected, HandshakeComplete)];
    assert Perform(p[1..][1..][1..], status, old_) == Perform(p[1..][1..][1..][1..], status, given);
    assert Perform(p[1..][1..], status, old_) ==
           if old_ == "" then Perform(p[1..][1..][1..], status, old_) else (status, old_);
  }

  /** A new stream, in either direction, makes the connection just connected unless it is terminated. */
  lemma PerformStreams(status: Status, key: Key)
    ensures Perform(SET_INBOUND_STREAM, status, key)
            == (if status == Terminated then Terminated else JustConnected, key)
    ensures Perform(NEW_OUTBOUND_STREAM, status, key)
            == (if status == Terminated then Terminated else JustConnected, key)
    ensures Perform(TERMINATE, status, key) == (Terminated, key)
  {
    var p := NEW_OUTBOUND_STREAM;
    assert Perform(p[1..][1..], JustConnected, key) == (JustConnected, key);
    assert Perform(p[1..][1..], Terminated, key) == (Terminated, key);
    assert SET_INBOUND_STREAM[1..] == p;
    assert Perform(TERMINATE[1..], Terminated, key) == (Terminated, key);
  }
}

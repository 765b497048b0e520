/**
 The message queue as a monitor, utils/message_queue.go: one lock, one condition variable,
 and any number of threads calling `Enqueue`, `Clear` and `DequeueOrWait`. The steps are the
 single actions between which other threads may run, with `cond.Wait` taken apart.
 */
module Monitor {
  import opened Envelopes

  type Thread = int

  /** Where a thread stands. */
  datatype Pc<V> =
    | Idle
    | PutWants(v: V)          // Enqueue: before Lock
    | PutHolds(v: V)          // holds the lock
    | PutPushed               // the value is in the queue, Broadcast is next
    | PutDone                 // Broadcast done, Unlock is next
    | ClearWants
    | ClearHolds
    | ClearDone
    | TakeWants               // DequeueOrWait: before Lock, for the first time or after waking
    | TakeHolds               // holds the lock, at the loop test
    | TakeRegistered          // inside Wait: on the list of waiters, Unlock is next
    | TakeAsleep              // inside Wait: until taken off the list
    | TakeDone(v: V)          // the value to return was removed, Unlock is next

  datatype Action<V> =
    | CallPut(v: V) | CallClear | CallTake
    | Lock | Act | Unlock | Wake

  datatype State<V> = State(
    queue: seq<V>,
    pcs: map<Thread, Pc<V>>,
    holder: Option<Thread>,
    waiters: set<Thread>,
    // history
    enqueued: seq<V>,
    removed: nat,              // how many values have left the queue
    discarded: nat,            // how many of them were cleared
    taken: seq<nat>,           // the positions, in `enqueued`, of the values given to consumers
    given: seq<V>)             // those values

  function Start<V>(): State<V> {
    State([], map[], None, {}, [], 0, 0, [], [])
  }

  function PcOf<V>(s: State<V>, t: Thread): Pc<V> {
    if t in s.pcs then s.pcs[t] else Idle
  }

  /** The thread is between Lock and Unlock. */
  predicate Holding<V>(pc: Pc<V>) {
    pc.PutHolds? || pc.PutPushed? || pc.PutDone? || pc.ClearHolds? || pc.ClearDone?
    || pc.TakeHolds? || pc.TakeRegistered? || pc.TakeDone?
  }

  predicate Wants<V>(pc: Pc<V>) {
    pc.PutWants? || pc.ClearWants? || pc.TakeWants?
  }

  predicate Enabled<V>(s: State<V>, t: Thread, a: Action<V>) {
    var pc := PcOf(s, t);
    match a
    case CallPut(_) => pc.Idle?
    case CallClear => pc.Idle?
    case CallTake => pc.Idle?
    case Lock => Wants(pc) && s.holder == None
    case Act => pc.PutHolds? || pc.PutPushed? || pc.ClearHolds? || pc.TakeHolds?
    case Unlock => pc.PutDone? || pc.ClearDone? || pc.TakeRegistered? || pc.TakeDone?
    case Wake => pc.TakeAsleep? && t !in s.waiters
  }

  function Goto<V>(s: State<V>, t: Thread, pc: Pc<V>): State<V> {
    s.(pcs := s.pcs[t := pc])
  }

  function Locked<V>(s: State<V>, t: Thread): State<V>
    requires Enabled(s, t, Lock)
  {
    var pc := PcOf(s, t);
    var next := if pc.PutWants? then PutHolds(pc.v) else if pc.ClearWants? then ClearHolds else TakeHolds;
    Goto(s, t, next).(holder := Some(t))
  }

  /** The body of the critical section, one action at a time. */
  function Acted<V>(s: State<V>, t: Thread): State<V>
    requires Enabled(s, t, Act)
  {
    var pc := PcOf(s, t);
    if pc.PutHolds? then Goto(s, t, PutPushed).(queue := s.queue + [pc.v], enqueued := s.enqueued + [pc.v])
    else if pc.PutPushed? then Goto(s, t, PutDone).(waiters := {})
    else if pc.ClearHolds? then
      Goto(s, t, ClearDone).(queue := [], removed := s.removed + |s.queue|, discarded := s.discarded + |s.queue|)
    else if s.queue == [] then Goto(s, t, TakeRegistered).(waiters := s.waiters + {t})
    else
      var v := s.queue[0];
      Goto(s, t, TakeDone(v)).(queue := s.queue[1..], removed := s.removed + 1,
                               taken := s.taken + [s.removed], given := s.given + [v])
  }

  function Unlocked<V>(s: State<V>, t: Thread): State<V>
    requires Enabled(s, t, Unlock)
  {
    Goto(s, t, if PcOf(s, t).TakeRegistered? then TakeAsleep else Idle).(holder := None)
  }

  function Step<V>(s: State<V>, t: Thread, a: Action<V>): State<V>
    requires Enabled(s, t, a)
  {
    match a
    case CallPut(v) => Goto(s, t, PutWants(v))
    case CallClear => Goto(s, t, ClearWants)
    case CallTake => Goto(s, t, TakeWants)
    case Lock => Locked(s, t)
    case Act => Acted(s, t)
    case Unlock => Unlocked(s, t)
    case Wake => Goto(s, t, TakeWants)
  }

  // ----- the invariant -----

  /** The lock is held by exactly the thread that stands between Lock and Unlock. */
  ghost predicate MutualExclusion<V>(s: State<V>) {
    forall t :: Holding(PcOf(s, t)) <==> s.holder == Some(t)
  }

  /** A producer has added its value and is about to wake everyone. */
  predicate BroadcastDue<V>(s: State<V>) {
    s.holder.Some? && PcOf(s, s.holder.value).PutPushed?
  }

  /** Whoever is on the list waits for good reason: the queue is empty or a broadcast is due. */
  ghost predicate NoLostWakeup<V>(s: State<V>) {
    && (s.waiters != {} ==> s.queue == [] || BroadcastDue(s))
    && (forall t :: t in s.waiters ==> PcOf(s, t).TakeRegistered? || PcOf(s, t).TakeAsleep?)
  }

  /** The queue is what was enqueued and has not left; values leave in order, each once. */
  ghost predicate Fifo<V>(s: State<V>) {
    && s.removed <= |s.enqueued|
    && s.queue == s.enqueued[s.removed..]
    && (forall i, j :: 0 <= i < j < |s.taken| ==> s.taken[i] < s.taken[j])
    && |s.given| == |s.taken|
    && (forall i :: 0 <= i < |s.taken| ==> s.taken[i] < s.removed && s.given[i] == s.enqueued[s.taken[i]])
    && s.removed == |s.taken| + s.discarded
  }

  ghost predicate Invariant<V>(s: State<V>) {
    MutualExclusion(s) && NoLostWakeup(s) && Fifo(s)
  }

  lemma StartInvariant<V>()
    ensures Invariant<V>(Start())
  {
  }

  lemma StepExclusion<V>(s: State<V>, t: Thread, a: Action<V>)
    requires MutualExclusion(s) && Enabled(s, t, a)
    ensures MutualExclusion(Step(s, t, a))
  {
    var s' := Step(s, t, a);
    assert Holding(PcOf(s, t)) <==> s.holder == Some(t);
    forall u ensures Holding(PcOf(s', u)) <==> s'.holder == Some(u) {
      assert Holding(PcOf(s, u)) <==> s.holder == Some(u);
    }
  }

  lemma StepWakeup<V>(s: State<V>, t: Thread, a: Action<V>)
    requires MutualExclusion(s) && NoLostWakeup(s) && Enabled(s, t, a)
    ensures NoLostWakeup(Step(s, t, a))
  {
    var s' := Step(s, t, a);
    assert Holding(PcOf(s, t)) <==> s.holder == Some(t);
    if BroadcastDue(s) && s.holder != Some(t) {
      assert PcOf(s', s.holder.value) == PcOf(s, s.holder.value);
    }
  }

  lemma StepFifo<V>(s: State<V>, t: Thread, a: Action<V>)
    requires Fifo(s) && Enabled(s, t, a)
    ensures Fifo(Step(s, t, a))
  {
  }

  /** A run of any number of threads, each step made by some thread. */
  ghost predicate IsRun<V>(ss: seq<State<V>>, ts: seq<Thread>, actions: seq<Action<V>>) {
    && |ss| == |actions| + 1 && |ts| == |actions|
    && ss[0] == Start()
    && forall i :: 0 <= i < |actions| ==>
         Enabled(ss[i], ts[i], actions[i]) && ss[i + 1] == Step(ss[i], ts[i], actions[i])
  }

  lemma {:induction false} RunInvariant<V>(ss: seq<State<V>>, ts: seq<Thread>, actions: seq<Action<V>>, i: nat)
    requires IsRun(ss, ts, actions) && i <= |actions|
    ensures Invariant(ss[i])
  {
    hide Step, Enabled;
    if i == 0 {
      StartInvariant<V>();
    } else {
      RunInvariant(ss, ts, actions, i - 1);
      assert Enabled(ss[i - 1], ts[i - 1], actions[i - 1]);
      StepExclusion(ss[i - 1], ts[i - 1], actions[i - 1]);
      StepWakeup(ss[i - 1], ts[i - 1], actions[i - 1]);
      StepFifo(ss[i - 1], ts[i - 1], actions[i - 1]);
    }
  }

  /**
   No lost wake-up, in every state of every run of any number of producers and consumers:
   a consumer that sleeps without having been woken sleeps on an empty queue, unless a producer
   holding the lock is about to wake it; if the lock is free, the queue is empty.
   */
  lemma SleeperMeansEmpty<V>(ss: seq<State<V>>, ts: seq<Thread>, actions: seq<Action<V>>, i: nat, t: Thread)
    requires IsRun(ss, ts, actions) && i <= |actions|
    requires PcOf(ss[i], t).TakeAsleep? && !Enabled(ss[i], t, Wake)
    ensures ss[i].queue == [] || BroadcastDue(ss[i])
    ensures ss[i].holder == None ==> ss[i].queue == []
  {
    RunInvariant(ss, ts, actions, i);
  }

  /**
   Every value enqueued is taken at most once, values are taken in the order they were enqueued,
   and those that are gone without having been taken were cleared.
   */
  lemma TakenOnceInOrder<V>(ss: seq<State<V>>, ts: seq<Thread>, actions: seq<Action<V>>, i: nat)
    requires IsRun(ss, ts, actions) && i <= |actions|
    ensures var s := ss[i];
            && s.removed <= |s.enqueued| && s.queue == s.enqueued[s.removed..]
            && s.removed == |s.taken| + s.discarded && |s.given| == |s.taken|
            && (forall j, k :: 0 <= j < k < |s.taken| ==> s.taken[j] < s.taken[k] < s.removed)
            && (forall j :: 0 <= j < |s.taken| ==> s.taken[j] < s.removed && s.given[j] == s.enqueued[s.taken[j]])
  {
    RunInvariant(ss, ts, actions, i);
  }

  // ----- what the callers see -----

  /** The value a thread holding the lock has taken and is about to return. */
  function InHand<V>(s: State<V>): seq<V> {
    if s.holder.Some? && PcOf(s, s.holder.value).TakeDone? then [PcOf(s, s.holder.value).v] else []
  }

  /** The value a thread holding the lock is about to add. */
  function OnTheWay<V>(s: State<V>): seq<V> {
    if s.holder.Some? && PcOf(s, s.holder.value).PutHolds? then [PcOf(s, s.holder.value).v] else []
  }

  /** The values that calls of `DequeueOrWait` have returned, in the order of their returns. */
  ghost function Returned<V>(ss: seq<State<V>>, ts: seq<Thread>, actions: seq<Action<V>>, i: nat): seq<V>
    requires i <= |actions| == |ts| && |ss| == |actions| + 1
  {
    if i == 0 then []
    else
      var pc := PcOf(ss[i - 1], ts[i - 1]);
      Returned(ss, ts, actions, i - 1) + if actions[i - 1].Unlock? && pc.TakeDone? then [pc.v] else []
  }

  /** The values with which calls of `Enqueue` have got the lock, in that order. */
  ghost function Entered<V>(ss: seq<State<V>>, ts: seq<Thread>, actions: seq<Action<V>>, i: nat): seq<V>
    requires i <= |actions| == |ts| && |ss| == |actions| + 1
  {
    if i == 0 then []
    else
      var pc := PcOf(ss[i - 1], ts[i - 1]);
      Entered(ss, ts, actions, i - 1) + if actions[i - 1].Lock? && pc.PutWants? then [pc.v] else []
  }

  lemma StepSeen<V>(s: State<V>, t: Thread, a: Action<V>, returned: seq<V>, entered: seq<V>)
    requires MutualExclusion(s) && Enabled(s, t, a)
    requires s.given == returned + InHand(s) && entered == s.enqueued + OnTheWay(s)
    ensures var s', pc := Step(s, t, a), PcOf(s, t);
            && s'.given == returned + (if a.Unlock? && pc.TakeDone? then [pc.v] else []) + InHand(s')
            && entered + (if a.Lock? && pc.PutWants? then [pc.v] else []) == s'.enqueued + OnTheWay(s')
  {
    assert Holding(PcOf(s, t)) <==> s.holder == Some(t);
    var s' := Step(s, t, a);
    if s.holder.Some? && s.holder != Some(t) {
      assert PcOf(s', s.holder.value) == PcOf(s, s.holder.value);
    }
  }

  /**
   Calls of `DequeueOrWait` return the values taken, one for one and in order, and calls of `Enqueue`
   add the values they were called with, in the order in which they get the lock.
   */
  lemma {:induction false} CallersSee<V>(ss: seq<State<V>>, ts: seq<Thread>, actions: seq<Action<V>>, i: nat)
    requires IsRun(ss, ts, actions) && i <= |actions|
    ensures ss[i].given == Returned(ss, ts, actions, i) + InHand(ss[i])
    ensures Entered(ss, ts, actions, i) == ss[i].enqueued + OnTheWay(ss[i])
  {
    hide Step, Enabled;
    if i > 0 {
      CallersSee(ss, ts, actions, i - 1);
      RunInvariant(ss, ts, actions, i - 1);
      StepSeen(ss[i - 1], ts[i - 1], actions[i - 1], Returned(ss, ts, actions, i - 1), Entered(ss, ts, actions, i - 1));
    }
  }

  /** When a call of `Clear` gives the lock back, nothing is left in the queue. */
  lemma ClearLeavesNothing<V>(ss: seq<State<V>>, ts: seq<Thread>, actions: seq<Action<V>>, i: nat, t: Thread)
    requires IsRun(ss, ts, actions) && i <= |actions| && PcOf(ss[i], t).ClearDone?
    ensures ss[i].queue == []
  {
    RunInvariant(ss, ts, actions, i);
    assert Holding(PcOf(ss[i], t));
    if i > 0 {
      RunInvariant(ss, ts, actions, i - 1);
      assert Enabled(ss[i - 1], ts[i - 1], actions[i - 1]);
      if PcOf(ss[i - 1], t).ClearDone? {
        assert Holding(PcOf(ss[i - 1], t)) && Holding(PcOf(ss[i - 1], t)) <==> ss[i - 1].holder == Some(t);
        ClearLeavesNothing(ss, ts, actions, i - 1, t);
      }
    }
  }

  /** The value of the last call of `Enqueue` by thread `t`. */
  function LastPut<V>(ts: seq<Thread>, actions: seq<Action<V>>, i: nat, t: Thread): Option<V>
    requires i <= |actions| == |ts|
  {
    if i == 0 then None
    else if ts[i - 1] == t && actions[i - 1].CallPut? then Some(actions[i - 1].v)
    else LastPut(ts, actions, i - 1, t)
  }

  /** A call of `Enqueue` carries the value it was called with. */
  lemma {:induction false} CallsCarryTheirValue<V>(ss: seq<State<V>>, ts: seq<Thread>, actions: seq<Action<V>>, i: nat,
                                                   t: Thread)
    requires IsRun(ss, ts, actions) && i <= |actions|
    requires PcOf(ss[i], t).PutWants? || PcOf(ss[i], t).PutHolds?
    ensures LastPut(ts, actions, i, t) == Some(PcOf(ss[i], t).v)
  {
    if i > 0 {
      assert Enabled(ss[i - 1], ts[i - 1], actions[i - 1]);
      if !(ts[i - 1] == t && actions[i - 1].CallPut?) {
        CallsCarryTheirValue(ss, ts, actions, i - 1, t);
      }
    }
  }

  /** As long as there is something in the queue, some thread that is not a sleeper can run. */
  lemma NeverStuck<V>(ss: seq<State<V>>, ts: seq<Thread>, actions: seq<Action<V>>, i: nat, t: Thread)
    returns (u: Thread, a: Action<V>)
    requires IsRun(ss, ts, actions) && i <= |actions|
    requires ss[i].queue != [] && !PcOf(ss[i], t).Idle?
    ensures Enabled(ss[i], u, a) && (a == Lock || a == Act || a == Unlock || a == Wake)
  {
    var s := ss[i];
    RunInvariant(ss, ts, actions, i);
    if s.holder.Some? {
      u := s.holder.value;
      assert Holding(PcOf(s, u));
      a := if Enabled(s, u, Act) then Act else Unlock;
    } else {
      u := t;
      assert !Holding(PcOf(s, u));
      a := if Wants(PcOf(s, u)) then Lock else Wake;
    }
  }
}

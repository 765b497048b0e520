/**
 The duplicate filter of a connection: a map of counters (`msgSpamCount`) and a bounded
 FIFO of message ids (`receivedMsgId`), against its meaning, "remember the last T - 1
 accepted ids". The counters are 32 bits wide and wrap.
 */
module SpamWindow {
  import opened Bytes

  /** peer_service/connection/connection.go:33. */
  const SPAM_STORE_THRESHOLD: nat := 10000

  type Id = uint64

  datatype Window = Window(counts: map<Id, uint32>, recent: seq<Id>)

  const EMPTY_WINDOW := Window(map[], [])

  /** What the counter of `id` reads; a missing entry reads 0. */
  function CountOf(w: Window, id: Id): uint32 {
    if id in w.counts then w.counts[id] else 0
  }

  function Bump(n: uint32): uint32 {
    (n + 1) % TWO_32
  }

  /** The id now counted once more. */
  function Counted(w: Window, id: Id): Window {
    w.(counts := w.counts[id := Bump(CountOf(w, id))])
  }

  /** `id` queued, and the oldest one forgotten if the queue has reached the threshold. */
  function Remembered(t: nat, w: Window, id: Id): Window {
    var queue := w.recent + [id];
    if |queue| >= t then Window(w.counts - {queue[0]}, queue[1..]) else Window(w.counts, queue)
  }

  /** A frame with `id` arrives: the window afterwards, and whether the frame is accepted. */
  function Arrive(t: nat, w: Window, id: Id): (Window, bool) {
    var w' := Counted(w, id);
    if w'.counts[id] == 1 then (Remembered(t, w', id), true) else (w', false)
  }

  // ----- whole runs -----

  /** The window after the frames with `ids`, and the ids accepted so far. */
  function Run(t: nat, ids: seq<Id>): (Window, seq<Id>)
    decreases |ids|
  {
    if ids == [] then (EMPTY_WINDOW, [])
    else
      var n := |ids| - 1;
      var (w, accepted) := Run(t, ids[..n]);
      var (w', new_) := Arrive(t, w, ids[n]);
      (w', if new_ then accepted + [ids[n]] else accepted)
  }

  lemma RunSnoc(t: nat, ids: seq<Id>, id: Id)
    ensures Run(t, ids + [id]) ==
            var (w, accepted) := Run(t, ids);
            var (w', new_) := Arrive(t, w, id);
            (w', if new_ then accepted + [id] else accepted)
  {
    hide Arrive;
    assert (ids + [id])[..|ids|] == ids;
  }

  lemma RunNothing(t: nat)
    ensures Run(t, []) == (EMPTY_WINDOW, [])
  {
  }

  function WindowAfter(t: nat, ids: seq<Id>): Window {
    Run(t, ids).0
  }

  function AcceptedIds(t: nat, ids: seq<Id>): seq<Id> {
    Run(t, ids).1
  }

  /** Whether the `i`-th frame of the run is accepted. */
  predicate AcceptedAt(t: nat, ids: seq<Id>, i: nat)
    requires i < |ids|
  {
    Arrive(t, WindowAfter(t, ids[..i]), ids[i]).1
  }

  /** The meaning of the window: the last `t - 1` accepted ids. */
  function Recall(t: nat, accepted: seq<Id>): (s: seq<Id>)
    requires t >= 1
  {
    if |accepted| < t then accepted else accepted[|accepted| - (t - 1)..]
  }

  predicate Distinct(s: seq<Id>) {
    forall i, j :: 0 <= i < j < |s| ==> s[i] != s[j]
  }

  /** The map and the queue hold the same ids. */
  ghost predicate SameIds(counts: map<Id, uint32>, recent: seq<Id>) {
    forall id :: id in counts <==> id in recent
  }

  /** What holds between frames as long as no counter has wrapped onto a remembered id. */
  ghost predicate Sound(t: nat, w: Window, accepted: seq<Id>)
    requires t >= 1
  {
    && w.recent == Recall(t, accepted)
    && Distinct(w.recent)
    && SameIds(w.counts, w.recent)
    && |w.recent| <= t - 1
  }

  /** The counter of a remembered id stands at 0: the next copy will look new. */
  predicate WrappedOnto(w: Window, id: Id) {
    id in w.counts && w.counts[id] == 0
  }

  lemma RecallAppend(t: nat, accepted: seq<Id>, id: Id)
    requires t >= 1
    ensures var queue := Recall(t, accepted) + [id];
            Recall(t, accepted + [id]) == if |queue| >= t then queue[1..] else queue
  {
  }

  lemma ForgetOldest(counts: map<Id, uint32>, queue: seq<Id>)
    requires queue != [] && Distinct(queue) && SameIds(counts, queue)
    ensures SameIds(counts - {queue[0]}, queue[1..]) && Distinct(queue[1..])
  {
    forall x ensures x in counts - {queue[0]} <==> x in queue[1..] {
      TailMembers(queue, x);
    }
  }

  /** Remembering a new id keeps the window sound. */
  lemma RememberedSound(t: nat, w: Window, accepted: seq<Id>, id: Id)
    requires t >= 1 && Sound(t, w, accepted) && id !in w.recent
    ensures Sound(t, Remembered(t, Counted(w, id), id), accepted + [id])
  {
    RecallAppend(t, accepted, id);
    hide Recall, Bump, CountOf;
    var queue, counts := w.recent + [id], Counted(w, id).counts;
    assert SameIds(counts, queue) by {
      forall x ensures x in counts <==> x in queue {
        assert x in queue <==> x in w.recent || x == id;
      }
    }
    assert Distinct(queue);
    if |queue| >= t {
      ForgetOldest(counts, queue);
    }
  }

  lemma TailMembers(queue: seq<Id>, x: Id)
    requires queue != [] && Distinct(queue)
    ensures x in queue[1..] <==> x in queue && x != queue[0]
  {
    assert queue == [queue[0]] + queue[1..];
  }

  /** One frame: accepted exactly when its id is not remembered, unless its counter wrapped. */
  lemma ArriveSound(t: nat, w: Window, accepted: seq<Id>, id: Id)
    requires t >= 1 && Sound(t, w, accepted)
    ensures Arrive(t, w, id).1 <==> id !in Recall(t, accepted) || WrappedOnto(w, id)
    ensures !WrappedOnto(w, id) ==>
              var (w', new_) := Arrive(t, w, id);
              Sound(t, w', if new_ then accepted + [id] else accepted)
  {
    hide Remembered, Recall;
    if id !in w.recent {
      RememberedSound(t, w, accepted, id);
    }
  }

  /** No frame of the run met a wrapped counter. */
  ghost predicate NeverWrapped(t: nat, ids: seq<Id>) {
    forall i :: 0 <= i < |ids| ==> !WrappedOnto(WindowAfter(t, ids[..i]), ids[i])
  }

  /** Every frame of the run was accepted exactly when its id was not among the last `t - 1` accepted. */
  ghost predicate Agrees(t: nat, ids: seq<Id>)
    requires t >= 1
  {
    forall i :: 0 <= i < |ids| ==>
      (AcceptedAt(t, ids, i) <==> ids[i] !in Recall(t, AcceptedIds(t, ids[..i])))
  }

  lemma PrefixOfPrefix(ids: seq<Id>, n: nat)
    requires n <= |ids|
    ensures forall i :: 0 <= i <= n ==> ids[..n][..i] == ids[..i]
  {
  }

  lemma PrefixNeverWrapped(t: nat, ids: seq<Id>, n: nat)
    requires n <= |ids| && NeverWrapped(t, ids)
    ensures NeverWrapped(t, ids[..n])
  {
    hide WrappedOnto, WindowAfter;
    PrefixOfPrefix(ids, n);
    forall i | 0 <= i < n ensures !WrappedOnto(WindowAfter(t, ids[..n][..i]), ids[..n][i]) {
      assert !WrappedOnto(WindowAfter(t, ids[..i]), ids[i]);
    }
  }

  lemma NothingSound(t: nat)
    requires t >= 1
    ensures Sound(t, EMPTY_WINDOW, [])
  {
  }

  lemma {:induction false} RunSound(t: nat, ids: seq<Id>)
    requires t >= 1 && NeverWrapped(t, ids)
    ensures Sound(t, WindowAfter(t, ids), AcceptedIds(t, ids))
    ensures Agrees(t, ids)
    decreases |ids|
  {
    hide Arrive, Run, Recall, WrappedOnto, Distinct, SameIds;
    RunNothing(t);
    if ids == [] {
      NothingSound(t);
    } else {
      var n := |ids| - 1;
      PrefixNeverWrapped(t, ids, n);
      PrefixOfPrefix(ids, n);
      assert ids == ids[..n] + [ids[n]];
      RunSnoc(t, ids[..n], ids[n]);
      RunSound(t, ids[..n]);
      ArriveSound(t, WindowAfter(t, ids[..n]), AcceptedIds(t, ids[..n]), ids[n]);
      forall i | 0 <= i < |ids|
        ensures AcceptedAt(t, ids, i) <==> ids[i] !in Recall(t, AcceptedIds(t, ids[..i]))
      {
        if i < n {
          assert AcceptedAt(t, ids[..n], i) <==> ids[..n][i] !in Recall(t, AcceptedIds(t, ids[..n][..i]));
        }
      }
    }
  }

  /**
   The filter means "not among the last T - 1 accepted ids", over every run, exactly
   when no frame arrives while the counter of its remembered id stands at 0.
   */
  lemma FilterMeansRecall(t: nat, ids: seq<Id>)
    requires t >= 1
    ensures Agrees(t, ids) <==> NeverWrapped(t, ids)
  {
    if NeverWrapped(t, ids) {
      RunSound(t, ids);
    } else {
      var i := FirstWrap(t, ids);
      assert NeverWrapped(t, ids[..i]) by {
        PrefixOfPrefix(ids, i);
      }
      RunSound(t, ids[..i]);
      ArriveSound(t, WindowAfter(t, ids[..i]), AcceptedIds(t, ids[..i]), ids[i]);
      assert AcceptedAt(t, ids, i) && ids[i] in Recall(t, AcceptedIds(t, ids[..i]));
    }
  }

  lemma FirstWrap(t: nat, ids: seq<Id>) returns (i: nat)
    requires !NeverWrapped(t, ids)
    ensures i < |ids| && WrappedOnto(WindowAfter(t, ids[..i]), ids[i])
    ensures forall k :: 0 <= k < i ==> !WrappedOnto(WindowAfter(t, ids[..k]), ids[k])
  {
    hide WindowAfter;
    var j :| 0 <= j < |ids| && WrappedOnto(WindowAfter(t, ids[..j]), ids[j]);
    i := 0;
    while !WrappedOnto(WindowAfter(t, ids[..i]), ids[i])
      invariant i <= j
      invariant forall k :: 0 <= k < i ==> !WrappedOnto(WindowAfter(t, ids[..k]), ids[k])
      decreases j - i
    {
      i := i + 1;
    }
  }

  // ----- when counters cannot wrap, and when they do -----

  function Copies(ids: seq<Id>, id: Id): nat
    decreases |ids|
  {
    if ids == [] then 0
    else Copies(ids[..|ids| - 1], id) + if ids[|ids| - 1] == id then 1 else 0
  }

  /** Fewer than 2^32 frames of the run carry any one id. */
  ghost predicate FewCopies(ids: seq<Id>) {
    forall id :: Copies(ids, id) < TWO_32
  }

  lemma {:induction false} PrefixHasFewCopies(ids: seq<Id>, n: nat)
    requires n <= |ids| && FewCopies(ids)
    ensures FewCopies(ids[..n])
    decreases |ids|
  {
    if n < |ids| {
      var m := |ids| - 1;
      assert FewCopies(ids[..m]) by {
        forall id ensures Copies(ids[..m], id) < TWO_32 {
          assert Copies(ids, id) >= Copies(ids[..m], id);
        }
      }
      assert ids[..m][..n] == ids[..n];
      PrefixHasFewCopies(ids[..m], n);
    } else {
      assert ids[..n] == ids;
    }
  }

  /** Counters never exceed the number of copies seen, and start again from 1. */
  lemma {:induction false} CountersBounded(t: nat, ids: seq<Id>)
    requires FewCopies(ids)
    ensures var w := WindowAfter(t, ids);
            forall id :: id in w.counts ==> 1 <= w.counts[id] <= Copies(ids, id)
    decreases |ids|
  {
    if ids != [] {
      var n := |ids| - 1;
      PrefixHasFewCopies(ids, n);
      CountersBounded(t, ids[..n]);
      var w := WindowAfter(t, ids[..n]);
      assert CountOf(w, ids[n]) <= Copies(ids[..n], ids[n]) == Copies(ids, ids[n]) - 1;
      assert Bump(CountOf(w, ids[n])) == CountOf(w, ids[n]) + 1;
    }
  }

  /** Fewer than 2^32 copies of each id are enough for the filter to mean what it should. */
  lemma FewCopiesNeverWrap(t: nat, ids: seq<Id>)
    requires FewCopies(ids)
    ensures NeverWrapped(t, ids)
  {
    forall i | 0 <= i < |ids| ensures !WrappedOnto(WindowAfter(t, ids[..i]), ids[i]) {
      PrefixHasFewCopies(ids, i);
      CountersBounded(t, ids[..i]);
    }
  }

  lemma AnotherCopy(t: nat, id: Id, n: nat)
    requires 1 <= n < TWO_32
    ensures Arrive(t, Window(map[id := n], [id]), id) == (Window(map[id := (n + 1) % TWO_32], [id]), false)
  {
    assert map[id := n][id := Bump(n)] == map[id := Bump(n)];
  }

  /** `count` copies of one id. */
  function Repeated(id: Id, count: nat): (s: seq<Id>)
    ensures |s| == count
  {
    if count == 0 then [] else Repeated(id, count - 1) + [id]
  }

  lemma FirstCopy(t: nat, id: Id)
    requires t >= 2
    ensures Arrive(t, EMPTY_WINDOW, id) == (Window(map[id := 1], [id]), true)
  {
    var none: map<Id, uint32> := map[];
    assert none[id := 1] == map[id := 1] && EMPTY_WINDOW.recent + [id] == [id];
    assert Counted(EMPTY_WINDOW, id) == Window(map[id := 1], []);
  }

  lemma {:induction false} ManyCopies(t: nat, id: Id, count: nat)
    requires t >= 2 && 1 <= count <= TWO_32
    ensures Run(t, Repeated(id, count)) == (Window(map[id := count % TWO_32], [id]), [id])
    decreases count
  {
    hide Arrive, Run;
    RunSnoc(t, Repeated(id, count - 1), id);
    if count == 1 {
      RunNothing(t);
      FirstCopy(t, id);
      assert Run(t, []).1 + [id] == [id];
    } else {
      ManyCopies(t, id, count - 1);
      AnotherCopy(t, id, count - 1);
    }
  }

  /** 2^32 copies of one id in a row, and the next copy is accepted as if it were new. */
  lemma WrapAcceptsDuplicate(t: nat, id: Id)
    requires t >= 2
    ensures var ids := Repeated(id, TWO_32 + 1);
            AcceptedAt(t, ids, TWO_32) && ids[TWO_32] in Recall(t, AcceptedIds(t, ids[..TWO_32]))
  {
    var ids := Repeated(id, TWO_32 + 1);
    assert ids[..TWO_32] == Repeated(id, TWO_32) && ids[TWO_32] == id;
    ManyCopies(t, id, TWO_32);
    assert Arrive(t, Window(map[id := 0], [id]), id).1;
  }

  // ----- spacing -----

  /** The `t - 1` ids accepted just before an accepted id are all different from it. */
  ghost predicate Spaced(t: nat, accepted: seq<Id>) {
    forall i, j :: 0 <= i < j < |accepted| && accepted[i] == accepted[j] ==> j - i >= t
  }

  lemma RecentIsRecalled(t: nat, accepted: seq<Id>, i: nat)
    requires t >= 1 && i < |accepted| < i + t
    ensures accepted[i] in Recall(t, accepted)
  {
    if |accepted| >= t {
      assert accepted[i] == Recall(t, accepted)[i - (|accepted| - (t - 1))];
    }
  }

  /** Two acceptances of one id have at least T - 1 others between them. */
  lemma {:induction false} AcceptedAreSpaced(t: nat, ids: seq<Id>)
    requires t >= 1 && NeverWrapped(t, ids)
    ensures Spaced(t, AcceptedIds(t, ids))
    decreases |ids|
  {
    hide Arrive, Run, Recall, WrappedOnto, Distinct, SameIds;
    RunNothing(t);
    if ids != [] {
      var n := |ids| - 1;
      PrefixNeverWrapped(t, ids, n);
      assert ids == ids[..n] + [ids[n]];
      RunSnoc(t, ids[..n], ids[n]);
      AcceptedAreSpaced(t, ids[..n]);
      RunSound(t, ids[..n]);
      var accepted := AcceptedIds(t, ids[..n]);
      ArriveSound(t, WindowAfter(t, ids[..n]), accepted, ids[n]);
      if AcceptedAt(t, ids, n) {
        forall i | 0 <= i < |accepted| && accepted[i] == ids[n] ensures |accepted| - i >= t {
          if |accepted| - i < t {
            RecentIsRecalled(t, accepted, i);
          }
        }
      }
    }
  }

  lemma {:induction false} AcceptedGrows(t: nat, ids: seq<Id>, n: nat)
    requires n <= |ids|
    ensures AcceptedIds(t, ids[..n]) <= AcceptedIds(t, ids)
    decreases |ids|
  {
    hide Arrive, Run;
    if n == |ids| {
      assert ids[..n] == ids;
    } else {
      var k := |ids| - 1;
      AcceptedGrows(t, ids[..k], n);
      assert ids[..k][..n] == ids[..n] && ids == ids[..k] + [ids[k]];
      RunSnoc(t, ids[..k], ids[k]);
    }
  }

  lemma NotSpaced(t: nat, accepted: seq<Id>, id: Id, all: seq<Id>)
    requires t >= 1 && id in Recall(t, accepted) && accepted + [id] <= all
    ensures !Spaced(t, all)
  {
    var recent := Recall(t, accepted);
    var k :| 0 <= k < |recent| && recent[k] == id;
    var i := |accepted| - |recent| + k;
    assert (accepted + [id])[i] == id && (accepted + [id])[|accepted|] == id;
    assert all[i] == id && all[|accepted|] == id && |accepted| - i < t;
  }

  /** The acceptances are spaced over a run exactly if no counter wraps onto a remembered id. */
  lemma SpacedExactly(t: nat, ids: seq<Id>)
    requires t >= 1
    ensures Spaced(t, AcceptedIds(t, ids)) <==> NeverWrapped(t, ids)
  {
    hide Arrive, Run, Recall, Distinct, SameIds, Spaced;
    if NeverWrapped(t, ids) {
      AcceptedAreSpaced(t, ids);
    } else {
      var i := FirstWrap(t, ids);
      assert NeverWrapped(t, ids[..i]) by {
        PrefixOfPrefix(ids, i);
      }
      RunSound(t, ids[..i]);
      var accepted := AcceptedIds(t, ids[..i]);
      ArriveSound(t, WindowAfter(t, ids[..i]), accepted, ids[i]);
      assert ids[..i + 1] == ids[..i] + [ids[i]];
      RunSnoc(t, ids[..i], ids[i]);
      AcceptedGrows(t, ids, i + 1);
      WrappedIsRecalled(t, WindowAfter(t, ids[..i]), accepted, ids[i]);
      NotSpaced(t, accepted, ids[i], AcceptedIds(t, ids));
    }
  }

  lemma WrappedIsRecalled(t: nat, w: Window, accepted: seq<Id>, id: Id)
    requires t >= 1 && Sound(t, w, accepted) && WrappedOnto(w, id)
    ensures id in Recall(t, accepted)
  {
  }
}

/**
 Handing received messages over to the C# side: `GetMessages` of embedded_hub.go packs them
 into a bounded buffer, `Hub.Get` of Hub.cs unpacks them and doubles the buffer while the
 first message does not fit.
 */
module HubBatch {
  import opened Bytes

  // ----- the layout -----

  /** One message in the buffer: its length in four bytes, then the message. */
  function Framed(m: Bytes): (s: Bytes)
    ensures |s| == |m| + 4
  {
    PutLe(|m| % TWO_32, 4) + m
  }

  function Layout(ms: seq<Bytes>): Bytes {
    if ms == [] then [] else Layout(ms[..|ms| - 1]) + Framed(ms[|ms| - 1])
  }

  /** The longest message for which the 32-bit space check is exact. */
  const LARGEST: nat := TWO_31 - 4

  /** The check as the program computes it, in 32 bits. */
  predicate NoRoom(ptr: nat, len: nat, cap: nat) {
    ((ptr + len % TWO_32) % TWO_32 + 4) % TWO_32 > cap
  }

  /** What the check is for. */
  predicate Overflows(ptr: nat, len: nat, cap: nat) {
    ptr + len + 4 > cap
  }

  lemma GuardRight(ptr: nat, len: nat, cap: nat)
    requires ptr <= cap < TWO_31 && len <= LARGEST
    ensures NoRoom(ptr, len, cap) <==> Overflows(ptr, len, cap)
  {
  }

  /** A pointer and a capacity for which the check goes wrong. */
  lemma GuardWrong(len: nat) returns (ptr: nat, cap: nat)
    requires len > LARGEST && len % TWO_32 != LARGEST
    ensures ptr <= cap < TWO_31 && Overflows(ptr, len, cap) && !NoRoom(ptr, len, cap)
  {
    cap := TWO_31 - 1;
    var l := len % TWO_32;
    if l < LARGEST || l >= TWO_32 - 4 {
      ptr := 0;
    } else {
      ptr := TWO_32 - 4 - l;
    }
  }

  /** The 32-bit check is exact, at every pointer and capacity, for exactly these message lengths. */
  lemma GuardExactly(len: nat)
    ensures (forall ptr: nat, cap: nat :: ptr <= cap < TWO_31 ==> (NoRoom(ptr, len, cap) <==> Overflows(ptr, len, cap)))
            <==> len <= LARGEST || len % TWO_32 == LARGEST
  {
    if len <= LARGEST {
      forall ptr: nat, cap: nat | ptr <= cap < TWO_31
        ensures NoRoom(ptr, len, cap) <==> Overflows(ptr, len, cap)
      {
        GuardRight(ptr, len, cap);
      }
    } else if len % TWO_32 != LARGEST {
      var ptr, cap := GuardWrong(len);
    }
  }

  // ----- which messages go -----

  function Size(ms: seq<Bytes>): nat {
    |Layout(ms)|
  }

  /** `c` is the length of the longest prefix of `queue` whose layout fits into `cap` bytes. */
  ghost predicate LongestFit(queue: seq<Bytes>, cap: nat, c: nat) {
    && c <= |queue|
    && Size(queue[..c]) <= cap
    && (c < |queue| ==> Size(queue[..c + 1]) > cap)
  }

  lemma LayoutSnoc(ms: seq<Bytes>, m: Bytes)
    ensures Layout(ms + [m]) == Layout(ms) + Framed(m)
  {
    assert (ms + [m])[..|ms|] == ms;
  }

  lemma {:induction false} SizeMonotone(queue: seq<Bytes>, i: nat, j: nat)
    requires i <= j <= |queue|
    ensures Size(queue[..i]) + 4 * (j - i) <= Size(queue[..j])
    decreases j
  {
    if i < j {
      SizeMonotone(queue, i, j - 1);
      assert queue[..j] == queue[..j - 1] + [queue[j - 1]];
      LayoutSnoc(queue[..j - 1], queue[j - 1]);
    }
  }

  /** It really is the longest: any prefix that fits is no longer. */
  lemma LongestFitIsLongest(queue: seq<Bytes>, cap: nat, c: nat, d: nat)
    requires LongestFit(queue, cap, c) && d <= |queue| && Size(queue[..d]) <= cap
    ensures d <= c
  {
    if d > c {
      SizeMonotone(queue, c + 1, d);
    }
  }

  /** The space check lets message `c` through behind the ones before it. */
  predicate LetsThrough(queue: seq<Bytes>, cap: nat, c: nat) {
    c < |queue| && !NoRoom(Size(queue[..c]), |queue[c]|, cap)
  }

  /** The check lets the first message through that does not fit any more. */
  ghost predicate Breaks(queue: seq<Bytes>, cap: nat) {
    exists c :: LongestFit(queue, cap, c) && LetsThrough(queue, cap, c)
  }

  lemma OneLongestFit(queue: seq<Bytes>, cap: nat, c: nat)
    requires LongestFit(queue, cap, c)
    ensures Breaks(queue, cap) <==> LetsThrough(queue, cap, c)
  {
    hide NoRoom, Size;
    forall d | LongestFit(queue, cap, d) ensures d == c {
      LongestFitIsLongest(queue, cap, c, d);
      LongestFitIsLongest(queue, cap, d, c);
    }
  }

  /** No message is longer than `most`. */
  predicate NoneOver(ms: seq<Bytes>, most: nat) {
    forall i :: 0 <= i < |ms| ==> |ms[i]| <= most
  }

  predicate NoneTooLarge(ms: seq<Bytes>) {
    NoneOver(ms, LARGEST)
  }

  /** For a given capacity, no message breaks the packing that is too short to make the check's sum wrap. */
  lemma BreaksOnlyAbove(queue: seq<Bytes>, cap: nat, most: nat)
    requires cap + most + 4 < TWO_32 && NoneOver(queue, most)
    ensures !Breaks(queue, cap)
  {
    hide Size;
    forall c: nat | LongestFit(queue, cap, c) && c < |queue| ensures !LetsThrough(queue, cap, c) {
      OneMoreSize(queue, c);
      GuardRightBelow(Size(queue[..c]), |queue[c]|, cap);
    }
  }

  lemma GuardRightBelow(ptr: nat, len: nat, cap: nat)
    requires ptr <= cap && cap + len + 4 < TWO_32
    ensures NoRoom(ptr, len, cap) <==> Overflows(ptr, len, cap)
  {
  }

  /** Messages of up to 2^31 - 4 bytes never break it, whatever the capacity. */
  lemma BreaksOnlyOnLarge(queue: seq<Bytes>, cap: nat)
    requires cap < TWO_31 && NoneTooLarge(queue)
    ensures !Breaks(queue, cap)
  {
    BreaksOnlyAbove(queue, cap, LARGEST);
  }

  lemma OneMoreSize(queue: seq<Bytes>, c: nat)
    requires c < |queue|
    ensures Size(queue[..c + 1]) == Size(queue[..c]) + |queue[c]| + 4
  {
    assert queue[..c + 1] == queue[..c] + [queue[c]];
    LayoutSnoc(queue[..c], queue[c]);
  }

  /** Messages that fit together are all small. */
  lemma FittingAreSmall(ms: seq<Bytes>)
    requires Size(ms) < TWO_31
    ensures NoneTooLarge(ms)
  {
    hide Size;
    forall i | 0 <= i < |ms| ensures |ms[i]| <= LARGEST {
      OneMoreSize(ms, i);
      SizeMonotone(ms, i + 1, |ms|);
      assert ms[..|ms|] == ms;
    }
  }

  // ----- packing -----

  /** The queue between the receive cycles and the C# side. */
  class Fifo {
    var queue: seq<Bytes>
    ghost var enqueued: seq<Bytes>    // history: everything ever enqueued

    constructor ()
      ensures queue == [] && enqueued == []
    {
      queue := [];
      enqueued := [];
    }

    method Enqueue(m: Bytes)
      modifies this
      ensures queue == old(queue) + [m] && enqueued == old(enqueued) + [m]
    {
      queue := queue + [m];
      enqueued := enqueued + [m];
    }

    /** What other goroutines put in between two steps of the reader. */
    method EnqueueAll(ms: seq<Bytes>)
      modifies this
      ensures queue == old(queue) + ms && enqueued == old(enqueued) + ms
    {
      for i := 0 to |ms|
        invariant queue == old(queue) + ms[..i] && enqueued == old(enqueued) + ms[..i]
      {
        Enqueue(ms[i]);
        assert ms[..i + 1] == ms[..i] + [ms[i]];
      }
      assert ms[..|ms|] == ms;
    }

    method GetLen() returns (n: nat)
      ensures n == |queue|
    {
      n := |queue|;
    }

    method Get(i: nat) returns (m: Bytes)
      requires i < |queue|
      ensures m == queue[i]
    {
      m := queue[i];
    }

    method Remove(i: nat)
      requires i < |queue|
      modifies this
      ensures queue == old(queue)[..i] + old(queue)[i + 1..] && enqueued == old(enqueued)
    {
      queue := queue[..i] + queue[i + 1..];
    }
  }

  function Joined(mss: seq<seq<Bytes>>): seq<Bytes> {
    if mss == [] then [] else Joined(mss[..|mss| - 1]) + mss[|mss| - 1]
  }

  lemma JoinedNothing(mss: seq<seq<Bytes>>)
    ensures Joined(mss[..0]) == []
  {
  }

  lemma JoinedTake(mss: seq<seq<Bytes>>, k: nat)
    requires k < |mss|
    ensures Joined(mss[..k + 1]) == Joined(mss[..k]) + mss[k]
  {
    assert mss[..k + 1][..k] == mss[..k];
  }

  /** C's memcpy into the caller's buffer. */
  method CopyTo(buffer: array<byte>, ptr: nat, s: Bytes)
    requires ptr + |s| <= buffer.Length
    modifies buffer
    ensures buffer[..ptr] == old(buffer[..ptr])
    ensures buffer[ptr..ptr + |s|] == s
    ensures buffer[ptr + |s|..] == old(buffer[ptr + |s|..])
  {
    var i := 0;
    while i < |s|
      invariant 0 <= i <= |s|
      invariant forall k :: 0 <= k < buffer.Length && !(ptr <= k < ptr + i) ==> buffer[k] == old(buffer[k])
      invariant forall k :: 0 <= k < i ==> buffer[ptr + k] == s[k]
    {
      buffer[ptr + i] := s[i];
      i := i + 1;
    }
  }

  lemma LayoutNothing()
    ensures Layout([]) == []
  {
  }

  /** One round of the packing loop: the next message, if there is room for it. */
  lemma PackOne(queue: seq<Bytes>, c: nat, written: Bytes, ptr: nat)
    requires c < |queue| && ptr == Size(queue[..c])
    requires ptr + |queue[c]| + 4 <= |written|
    requires written[..ptr] == Layout(queue[..c]) && written[ptr..ptr + |queue[c]| + 4] == Framed(queue[c])
    ensures Size(queue[..c + 1]) == ptr + |queue[c]| + 4
    ensures written[..ptr + |queue[c]| + 4] == Layout(queue[..c + 1])
  {
    hide Framed;
    assert queue[..c + 1] == queue[..c] + [queue[c]];
    LayoutSnoc(queue[..c], queue[c]);
    var end := ptr + |queue[c]| + 4;
    assert written[..end] == written[..ptr] + written[ptr..end];
  }

  /** Writes message `c` of `queue` behind the ones before it. */
  method PackMessage(buffer: array<byte>, ghost queue: seq<Bytes>, ghost c: nat, ptr: nat, msg: Bytes)
    requires c < |queue| && msg == queue[c] && ptr == Size(queue[..c])
    requires |msg| <= LARGEST && ptr + |msg| + 4 <= buffer.Length
    requires buffer[..ptr] == Layout(queue[..c])
    modifies buffer
    ensures Size(queue[..c + 1]) == ptr + |msg| + 4
    ensures buffer[..ptr + |msg| + 4] == Layout(queue[..c + 1])
    ensures buffer[ptr + |msg| + 4..] == old(buffer[ptr + |msg| + 4..])
  {
    var framed := PutLe(|msg| % TWO_32, 4) + msg;
    CopyTo(buffer, ptr, framed);
    assert framed == Framed(msg);
    PackOne(queue, c, buffer[..], ptr);
  }

  /**
   Packs the longest prefix of the messages present at the call that fits. `others` is what the
   producers add before each round; `rounds` of them have happened when it returns.

   `broken` says that the space check has let a message through that does not fit. The program
   then copies past the buffer or copies less than the message; what becomes of the buffer is
   not described.
   */
  method GetMessages(messages: Fifo, buffer: array<byte>, others: seq<seq<Bytes>>)
    returns (c: int, ghost rounds: nat, broken: bool)
    requires buffer.Length < TWO_31
    modifies messages, buffer
    ensures old(messages.queue) == [] ==>
              c == -1 && rounds == 0 && !broken && messages.queue == [] && buffer[..] == old(buffer[..])
    ensures old(messages.queue) != [] ==>
              c >= 0 && LongestFit(old(messages.queue), buffer.Length, c)
              && (broken <==> Breaks(old(messages.queue), buffer.Length))
    ensures rounds <= |others| && messages.enqueued == old(messages.enqueued) + Joined(others[..rounds])
    ensures old(messages.queue) != [] && !broken ==>
              && buffer[..Size(old(messages.queue)[..c])] == Layout(old(messages.queue)[..c])
              && buffer[Size(old(messages.queue)[..c])..] == old(buffer[..])[Size(old(messages.queue)[..c])..]
              && messages.queue == old(messages.queue)[c..] + Joined(others[..rounds])
  {
    hide Framed, NoRoom, Layout, Joined, LongestFit, Breaks;
    JoinedNothing(others);
    var n := messages.GetLen();
    rounds, broken := 0, false;
    if n == 0 {
      return -1, 0, false;
    }
    ghost var queue := messages.queue;
    c := 0;
    var ptr := 0;
    var i := 0;
    LayoutNothing();
    assert queue[..0] == [] && queue[0..] == queue;
    while i < n
      invariant 0 <= i == c <= n == |queue|
      invariant ptr == Size(queue[..c]) <= buffer.Length
      invariant buffer[..ptr] == Layout(queue[..c])
      invariant buffer[ptr..] == old(buffer[..])[ptr..]
      invariant rounds <= |others| && rounds == if i <= |others| then i else |others|
      invariant messages.queue == queue[c..] + Joined(others[..rounds])
      invariant messages.enqueued == old(messages.enqueued) + Joined(others[..rounds])
    {
      if i < |others| {
        messages.EnqueueAll(others[i]);
        JoinedTake(others, rounds);
        rounds := rounds + 1;
      }
      var msg := messages.Get(0);
      var l := |msg| % TWO_32;
      DropFirst(queue, c, Joined(others[..rounds]));
      StopsExactly(queue, c, buffer.Length, ptr);
      if NoRoom(ptr, l, buffer.Length) {
        return;
      }
      messages.Remove(0);
      if Overflows(ptr, |msg|, buffer.Length) {    // the program goes on regardless
        broken := true;
        return;
      }
      ghost var before := buffer[..];
      SameTail(before, old(buffer[..]), ptr, |msg| + 4);
      PackMessage(buffer, queue, c, ptr, msg);
      assert buffer[ptr + |msg| + 4..] == before[ptr + |msg| + 4..];
      ptr := ptr + l + 4;
      c := c + 1;
      i := i + 1;
    }
    AllFit(queue, buffer.Length);
  }

  /** The loop stops at message `c`, or breaks there, exactly when the layout with it would be too long. */
  lemma StopsExactly(queue: seq<Bytes>, c: nat, cap: nat, ptr: nat)
    requires c < |queue| && ptr == Size(queue[..c]) <= cap < TWO_31
    ensures !Overflows(ptr, |queue[c]|, cap) ==> !NoRoom(ptr, |queue[c]|, cap)
    ensures NoRoom(ptr, |queue[c]|, cap) == NoRoom(ptr, |queue[c]| % TWO_32, cap)
    ensures NoRoom(ptr, |queue[c]|, cap) ==> LongestFit(queue, cap, c) && !Breaks(queue, cap)
    ensures Overflows(ptr, |queue[c]|, cap) && !NoRoom(ptr, |queue[c]|, cap) ==>
              LongestFit(queue, cap, c) && Breaks(queue, cap)
  {
    hide Size, Breaks;
    OneMoreSize(queue, c);
    if Overflows(ptr, |queue[c]|, cap) {
      OneLongestFit(queue, cap, c);
    }
  }

  lemma AllFit(queue: seq<Bytes>, cap: nat)
    requires Size(queue[..|queue|]) <= cap
    ensures LongestFit(queue, cap, |queue|) && !Breaks(queue, cap)
  {
    OneLongestFit(queue, cap, |queue|);
  }

  lemma SameTail(a: Bytes, b: Bytes, ptr: nat, n: nat)
    requires |a| == |b| && ptr + n <= |a| && a[ptr..] == b[ptr..]
    ensures a[ptr + n..] == b[ptr + n..]
  {
    assert a[ptr + n..] == a[ptr..][n..] && b[ptr + n..] == b[ptr..][n..];
  }

  lemma DropFirst(queue: seq<Bytes>, c: nat, more: seq<Bytes>)
    requires c < |queue|
    ensures var line := queue[c..] + more;
            line[0] == queue[c] && line[..0] + line[1..] == queue[c + 1..] + more
  {
  }
}

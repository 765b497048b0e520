/** The C# side: Hub.cs. */
module HubGet {
  import opened Bytes
  import opened HubBatch

  const INITIAL_BUFFER_SIZE: nat := 1024 * 1024
  const LARGEST_BUFFER: nat := 0x4000_0000

  /** The longest message that never breaks the packing, whatever size the buffer has grown to. */
  const LARGEST_SAFE: nat := TWO_32 - LARGEST_BUFFER - 5

  /** The buffer's size after `doublings` doublings. */
  function BufferSize(doublings: nat): (n: nat)
    ensures n >= INITIAL_BUFFER_SIZE
  {
    if doublings == 0 then INITIAL_BUFFER_SIZE else 2 * BufferSize(doublings - 1)
  }

  /** Ten doublings lead to the largest size that can be doubled no further. */
  lemma BufferSizes(doublings: nat)
    ensures doublings == 10 ==> BufferSize(doublings) == LARGEST_BUFFER
    ensures doublings < 10 ==> 2 * BufferSize(doublings) <= LARGEST_BUFFER
    ensures doublings <= 10 ==> BufferSize(doublings) <= LARGEST_BUFFER
  {
    if doublings <= 10 {
      BufferSizesUpTo10();
    }
  }

  lemma BufferSizesUpTo10()
    ensures BufferSize(1) == 0x20_0000 && BufferSize(2) == 0x40_0000 && BufferSize(3) == 0x80_0000
    ensures BufferSize(4) == 0x100_0000 && BufferSize(5) == 0x200_0000 && BufferSize(6) == 0x400_0000
    ensures BufferSize(7) == 0x800_0000 && BufferSize(8) == 0x1000_0000 && BufferSize(9) == 0x2000_0000
    ensures BufferSize(10) == 0x4000_0000
  {
    assert BufferSize(1) == 2 * BufferSize(0);
    assert BufferSize(4) == 2 * BufferSize(3);
    assert BufferSize(6) == 2 * BufferSize(5);
    assert BufferSize(8) == 2 * BufferSize(7);
  }

  /** How a call of `Get` ends. */
  datatype GetResult =
    | Batch(messages: seq<Bytes>)
    | BufferOverflow          // the parser ran past the buffer
    | SizeOverflow            // the doubled size does not fit a 32-bit int
    | Broken                  // the space check let a message through that does not fit

  lemma {:induction false} LayoutGrows(ms: seq<Bytes>, i: nat, j: nat)
    requires i <= j <= |ms|
    ensures Layout(ms[..i]) <= Layout(ms[..j])
    decreases j
  {
    hide Layout, Framed;
    if i < j {
      LayoutGrows(ms, i, j - 1);
      FramedAt(ms, j - 1);
    }
  }

  lemma LayoutPrefix(ms: seq<Bytes>, i: nat)
    requires i <= |ms|
    ensures Size(ms[..i]) <= Size(ms) && Layout(ms)[..Size(ms[..i])] == Layout(ms[..i])
  {
    hide Layout;
    LayoutGrows(ms, i, |ms|);
    assert ms[..|ms|] == ms;
  }

  /** Message `i` lies in the buffer where the parser looks for it. */
  lemma MessageAt(buffer: Bytes, ms: seq<Bytes>, i: nat)
    requires i < |ms| && NoneTooLarge(ms)
    requires Size(ms) <= |buffer| && buffer[..Size(ms)] == Layout(ms)
    ensures var ptr := Size(ms[..i]);
            && ptr + 4 + |ms[i]| == Size(ms[..i + 1]) <= |buffer|
            && GetLe(buffer[ptr..ptr + 4]) == |ms[i]|
            && buffer[ptr + 4..ptr + 4 + |ms[i]|] == ms[i]
  {
    var ptr, end := Size(ms[..i]), Size(ms[..i + 1]);
    LayoutPrefix(ms, i);
    LayoutPrefix(ms, i + 1);
    FramedAt(ms, i);
    assert buffer[..end] == Layout(ms[..i + 1]);
    assert buffer[ptr..end] == Framed(ms[i]);
    hide Framed, Layout;
    FramedParts(ms[i]);
    assert buffer[ptr..ptr + 4] == buffer[ptr..end][..4];
    assert buffer[ptr + 4..end] == buffer[ptr..end][4..];
  }

  lemma FramedAt(ms: seq<Bytes>, i: nat)
    requires i < |ms|
    ensures Size(ms[..i + 1]) == Size(ms[..i]) + |ms[i]| + 4
    ensures Layout(ms[..i + 1]) == Layout(ms[..i]) + Framed(ms[i])
  {
    assert ms[..i + 1] == ms[..i] + [ms[i]];
    LayoutSnoc(ms[..i], ms[i]);
  }

  lemma LengthRoundTrip(n: nat)
    requires n <= LARGEST
    ensures GetLe(PutLe(n, 4)) == n
  {
    SpanValues();
    hide PutLe, GetLe, Span;
    LeRoundTrip(n, 4);
  }

  lemma FramedIs(m: Bytes)
    requires |m| <= LARGEST
    ensures Framed(m) == PutLe(|m|, 4) + m
  {
    hide PutLe;
    SmallRemainder(|m|, TWO_32);
  }

  lemma FramedParts(m: Bytes)
    requires |m| <= LARGEST
    ensures GetLe(Framed(m)[..4]) == |m| && Framed(m)[4..] == m
  {
    hide PutLe, GetLe, Framed;
    LengthRoundTrip(|m|);
    FramedIs(m);
    assert Framed(m)[..4] == PutLe(|m|, 4);
  }

  /** The first message goes exactly if it fits by itself. */
  lemma FirstGoes(queue: seq<Bytes>, cap: nat, c: nat)
    requires queue != [] && LongestFit(queue, cap, c)
    ensures c > 0 <==> |queue[0]| + 4 <= cap
    ensures c <= |queue| && Size(queue[..c]) <= cap
  {
    hide Layout;
    LayoutNothing();
    FramedAt(queue, 0);
    assert queue[..0] == [];
    if c > 0 {
      SizeMonotone(queue, 1, c);
    }
  }

  class Hub {
    var buffer: array<byte>
    ghost var doublings: nat

    ghost predicate Valid()
      reads this
    {
      doublings <= 10 && buffer.Length == BufferSize(doublings)
    }

    constructor ()
      ensures Valid() && fresh(buffer) && doublings == 0
    {
      buffer := new byte[INITIAL_BUFFER_SIZE];
      doublings := 0;
    }

    /** Reads `result` messages out of the buffer. */
    method Unpack(result: nat, ghost ms: seq<Bytes>) returns (r: GetResult)
      requires |ms| == result
      requires Size(ms) <= buffer.Length < TWO_31 && buffer[..Size(ms)] == Layout(ms)
      ensures r == Batch(ms)
    {
      hide Layout;
      LayoutNothing();
      FittingAreSmall(ms);
      var ret: seq<Bytes> := [];
      var ptr := 0;
      var i := 0;
      assert ms[..0] == [];
      while i < result
        invariant 0 <= i <= result && ret == ms[..i] && ptr == Size(ms[..i])
      {
        assert buffer[..][..Size(ms)] == buffer[..Size(ms)];
        MessageAt(buffer[..], ms, i);
        if ptr + 4 > buffer.Length {
          return BufferOverflow;
        }
        assert buffer[..][ptr..ptr + 4] == buffer[ptr..ptr + 4];
        var len := GetLe(buffer[ptr..ptr + 4]);
        ptr := ptr + 4;
        if ptr + len > buffer.Length {
          return BufferOverflow;
        }
        assert buffer[..][ptr..ptr + len] == buffer[ptr..ptr + len];
        ret := ret + [buffer[ptr..ptr + len]];
        ptr := ptr + len;
        i := i + 1;
      }
      assert ms[..i] == ms;
      r := Batch(ret);
    }

    /** Doubles the buffer, unless the doubled size no longer fits a 32-bit int. */
    method Grow() returns (grown: bool)
      requires Valid()
      modifies this
      ensures Valid()
      ensures grown ==> fresh(buffer) && buffer.Length == 2 * old(buffer.Length) && doublings == old(doublings) + 1
      ensures !grown ==> buffer == old(buffer) && doublings == old(doublings) && buffer.Length == LARGEST_BUFFER
    {
      BufferSizes(doublings);
      var length := buffer.Length * 2;
      if length >= TWO_31 {
        return false;
      }
      buffer := new byte[length];
      doublings := doublings + 1;
      grown := true;
    }

    /** One call of `GetMessages` and, if it packed anything, the unpacking. */
    method Round(messages: Fifo, before: seq<seq<Bytes>>) returns (r: GetResult, again: bool, ghost more: seq<Bytes>)
      requires buffer.Length < TWO_31
      modifies buffer, messages
      ensures messages.enqueued == old(messages.enqueued) + more
      ensures var line := old(messages.queue);
              if line == [] then r == Batch([]) && !again && more == [] && messages.queue == []
              else if Breaks(line, buffer.Length) then r == Broken && !again
              else
                && (again <==> |line[0]| + 4 > buffer.Length)
                && r.Batch? && (again <==> r.messages == [])
                && r.messages + messages.queue == line + more
    {
      hide Layout, LongestFit, Breaks;
      more := [];
      ghost var line := messages.queue;
      var result, rounds, broken := GetMessages(messages, buffer, before);
      more := Joined(before[..rounds]);
      JoinedNothing(before);
      if result < 0 {
        return Batch([]), false, [];
      }
      if broken {
        return Broken, false, more;
      }
      FirstGoes(line, buffer.Length, result);
      again := result == 0;
      if again {
        r := Batch([]);
      } else {
        r := Unpack(result, line[..result]);
      }
      assert line == line[..result] + line[result..];
    }

    /**
     One call of `Get`. `others` is what producers add before each call of `GetMessages` and
     before each of its rounds; `arrived` is what they have added when the call returns, and
     `line` was the queue when `GetMessages` was last called.

     The batch and what is left make up what was queued, in order; an empty queue gives the
     empty batch; and on a queue that is not empty the call ends with a non-empty batch exactly
     if the first message fits the largest buffer. The buffer grows only while it must. All this
     unless the space check lets a message through that does not fit, which it does exactly if
     `line` breaks the packing into the buffer as it is by then.
     */
    method Get(messages: Fifo, others: seq<seq<seq<Bytes>>>)
      returns (r: GetResult, ghost arrived: seq<Bytes>, ghost line: seq<Bytes>)
      requires Valid()
      modifies this, buffer, messages
      ensures Valid() && (buffer != old(buffer) ==> fresh(buffer))
      ensures messages.enqueued == old(messages.enqueued) + arrived
      ensures old(messages.queue) <= line <= old(messages.queue) + arrived
      ensures r.Broken? <==> Breaks(line, buffer.Length)
      ensures r.Broken? ==> !NoneOver(old(messages.queue) + arrived, LARGEST_SAFE)
      ensures r != BufferOverflow
      ensures old(messages.queue) == [] ==> r == Batch([]) && arrived == [] && messages.queue == []
      ensures old(messages.queue) != [] && !r.Broken? ==>
                (r.Batch? <==> |old(messages.queue)[0]| + 4 <= LARGEST_BUFFER)
      ensures r.Batch? && old(messages.queue) != [] ==> r.messages != []
      ensures r.Batch? ==> r.messages + messages.queue == old(messages.queue) + arrived
      ensures r.SizeOverflow? ==> messages.queue == old(messages.queue) + arrived
      ensures buffer.Length > old(buffer.Length) ==>
                old(messages.queue) != [] && buffer.Length < 2 * (|old(messages.queue)[0]| + 4)
    {
      hide NoneOver, Breaks, BufferSize;
      arrived := [];
      ghost var queue := messages.queue;
      var i := 0;
      while true
        invariant Valid() && messages.queue == queue + arrived
        invariant messages.enqueued == old(messages.enqueued) + arrived
        invariant i > 0 ==> queue != []
        invariant i == 0 ==> arrived == [] && buffer == old(buffer)
        invariant buffer == old(buffer) || fresh(buffer)
        invariant buffer.Length > old(buffer.Length) ==> queue != [] && buffer.Length < 2 * (|queue[0]| + 4)
        decreases 10 - doublings
      {
        BufferSizes(doublings);
        var before := if i < |others| then others[i] else [];
        line := queue + arrived;
        NothingBreaks(buffer.Length);
        var again;
        ghost var more;
        r, again, more := Round(messages, before);
        assert line + more == queue + (arrived + more);
        BrokenIsLarge(line, more, buffer.Length);
        arrived := arrived + more;
        if !again {
          return;
        }
        var grown := Grow();
        if !grown {
          return SizeOverflow, arrived, line;
        }
        i := i + 1;
      }
    }
  }

  lemma NothingBreaks(cap: nat)
    ensures !Breaks([], cap)
  {
  }

  /** A round breaks only on a message that is too large, whatever comes in meanwhile. */
  lemma BrokenIsLarge(line: seq<Bytes>, more: seq<Bytes>, cap: nat)
    requires cap <= LARGEST_BUFFER
    ensures NoneOver(line + more, LARGEST_SAFE) ==> !Breaks(line, cap)
  {
    hide Breaks;
    if NoneOver(line + more, LARGEST_SAFE) {
      forall i | 0 <= i < |line| ensures |line[i]| <= LARGEST_SAFE {
        assert (line + more)[i] == line[i];
      }
      BreaksOnlyAbove(line, cap, LARGEST_SAFE);
    }
  }

  /**
   A single message breaks the packing exactly if it does not fit and its length makes the sum wrap
   to the capacity or below.
   */
  lemma SingleBreaks(m: Bytes, cap: nat)
    ensures Breaks([m], cap) <==> |m| + 4 > cap && (|m| % TWO_32 + 4) % TWO_32 <= cap
  {
    hide Size;
    SizesOfOne(m);
    if |m| + 4 > cap {
      OneLongestFit([m], cap, 0);
    } else {
      OneLongestFit([m], cap, 1);
    }
  }

  lemma SizesOfOne(m: Bytes)
    ensures Size([m][..0]) == 0 && Size([m][..1]) == |m| + 4
  {
    LayoutNothing();
    assert [m][..0] == [];
    OneMoreSize([m], 0);
  }

  /** A message one byte longer than the safe length breaks the packing behind one that fills the largest buffer. */
  lemma SafeLengthIsTight(a: Bytes, b: Bytes)
    requires |a| == LARGEST_BUFFER - 4 && |b| == LARGEST_SAFE + 1
    ensures Breaks([a, b], LARGEST_BUFFER)
  {
    hide Size;
    var queue := [a, b];
    SizesOfOne(a);
    assert queue[..1] == [a][..1];
    OneMoreSize(queue, 1);
    OneLongestFit(queue, LARGEST_BUFFER, 1);
  }

  // ----- any sequence of calls -----

  /** A message is processed, or `Get` is called while producers go on as for `Hub.Get`. */
  datatype Call = ProcessMessage(m: Bytes) | Get(others: seq<seq<seq<Bytes>>>)

  /** All messages returned, in order. */
  function Returned(results: seq<GetResult>): seq<Bytes> {
    if results == [] then []
    else
      var k := |results| - 1;
      Returned(results[..k]) + BatchOf(results[k])
  }

  function Gets(calls: seq<Call>): nat {
    if calls == [] then 0 else Gets(calls[..|calls| - 1]) + if calls[|calls| - 1].Get? then 1 else 0
  }

  lemma ReturnedMore(results: seq<GetResult>, r: seq<GetResult>)
    requires |r| <= 1
    ensures Returned(results + r) == Returned(results) + Returned(r)
  {
    if r == [] {
      assert results + r == results;
    } else {
      assert (results + r)[..|results|] == results && r[..0] == [];
    }
  }

  lemma GetsMore(calls: seq<Call>, i: nat)
    requires i < |calls|
    ensures Gets(calls[..i + 1]) == Gets(calls[..i]) + if calls[i].Get? then 1 else 0
  {
    assert calls[..i + 1][..i] == calls[..i];
  }

  /** Makes one call; `r` holds its result if it is a `Get`. */
  method MakeCall(hub: Hub, messages: Fifo, call: Call) returns (r: seq<GetResult>, ghost more: seq<Bytes>)
    requires hub.Valid()
    modifies hub, hub.buffer, messages
    ensures hub.Valid() && (hub.buffer != old(hub.buffer) ==> fresh(hub.buffer))
    ensures messages.enqueued == old(messages.enqueued) + more
    ensures |r| == if call.Get? then 1 else 0
    ensures r != [BufferOverflow]
    ensures r == [Broken] ==> !NoneOver(old(messages.queue) + more, LARGEST_SAFE)
    ensures r != [Broken] ==> Returned(r) + messages.queue == old(messages.queue) + more
  {
    hide NoneOver, Breaks;
    r := [];
    match call {
      case ProcessMessage(m) =>
        messages.Enqueue(m);
        more := [m];
      case Get(others) =>
        var result, arrived, line := hub.Get(messages, others);
        r, more := [result], arrived;
        ReturnedOne(result);
    }
  }

  lemma ReturnedOne(r: GetResult)
    ensures Returned([r]) == BatchOf(r)
  {
    assert [r][..0] == [];
  }

  /**
   Makes the calls, up to the first one that breaks; `since` is what was enqueued meanwhile, by
   these calls and by the producers. As long as none breaks, all of it comes out in order, once,
   behind what was queued before: in the batches, or still in the queue - though calls may fail
   for want of a larger buffer. A call breaks only on a message too large for the space check.
   */
  method Drain(hub: Hub, messages: Fifo, calls: seq<Call>) returns (results: seq<GetResult>, ghost since: seq<Bytes>)
    requires hub.Valid()
    modifies hub, hub.buffer, messages
    ensures hub.Valid() && messages.enqueued == old(messages.enqueued) + since
    ensures BufferOverflow !in results
    ensures Broken !in results ==>
              && |results| == Gets(calls)
              && Returned(results) + messages.queue == old(messages.queue) + since
    ensures Broken in results ==> !NoneOver(old(messages.queue) + since, LARGEST_SAFE)
  {
    ghost var queue, enqueued := messages.queue, messages.enqueued;
    results, since := [], [];
    assert Returned([]) == [] && Gets(calls[..0]) == 0 && Flows([], queue, queue, []);
    assert Healthy([]) && enqueued + [] == enqueued;
    hide NoneOver, Breaks, Returned, Gets, Flows, Healthy;
    for i := 0 to |calls|
      invariant hub.Valid() && (hub.buffer == old(hub.buffer) || fresh(hub.buffer))
      invariant messages.enqueued == enqueued + since
      invariant Healthy(results) && |results| == Gets(calls[..i])
      invariant Flows(Returned(results), messages.queue, queue, since)
    {
      GetsMore(calls, i);
      ghost var line := messages.queue;
      var r, more := MakeCall(hub, messages, calls[i]);
      Joins(enqueued, since, more);
      StaysHealthy(results, r);
      if r == [Broken] {
        LargeIsInside(Returned(results), line, queue, since, more);
        results, since := results + r, since + more;
        return;
      }
      Onward(Returned(results), line, queue, since, Returned(r), messages.queue, more);
      ReturnedMore(results, r);
      results, since := results + r, since + more;
    }
    assert calls[..|calls|] == calls;
    Through(Returned(results), messages.queue, queue, since);
    StaysHealthy(results, []);
    assert results + [] == results;
  }

  predicate Healthy(results: seq<GetResult>) {
    Broken !in results && BufferOverflow !in results
  }

  lemma StaysHealthy(results: seq<GetResult>, r: seq<GetResult>)
    requires Healthy(results) && |r| <= 1 && r != [BufferOverflow]
    ensures Healthy(results + r) <==> r != [Broken]
    ensures BufferOverflow !in results + r && (Broken in results + r <==> r == [Broken])
  {
  }

  lemma Joins(a: seq<Bytes>, b: seq<Bytes>, c: seq<Bytes>)
    ensures (a + b) + c == a + (b + c)
  {
  }

  function BatchOf(r: GetResult): seq<Bytes> {
    if r.Batch? then r.messages else []
  }

  /** What was returned and the line behind it are what was queued and came in since. */
  ghost predicate Flows(returned: seq<Bytes>, line: seq<Bytes>, queue: seq<Bytes>, since: seq<Bytes>) {
    returned + line == queue + since
  }

  lemma Through(returned: seq<Bytes>, line: seq<Bytes>, queue: seq<Bytes>, since: seq<Bytes>)
    requires Flows(returned, line, queue, since)
    ensures returned + line == queue + since
  {
  }

  /** A batch is taken from the front of the line while `more` comes in behind. */
  lemma Onward(returned: seq<Bytes>, line: seq<Bytes>, queue: seq<Bytes>, since: seq<Bytes>,
               batch: seq<Bytes>, line': seq<Bytes>, more: seq<Bytes>)
    requires Flows(returned, line, queue, since) && batch + line' == line + more
    ensures Flows(returned + batch, line', queue, since + more)
  {
    assert (returned + batch) + line' == returned + (line + more);
    assert returned + (line + more) == (returned + line) + more;
    assert queue + (since + more) == (queue + since) + more;
  }

  lemma LargeIsInside(returned: seq<Bytes>, line: seq<Bytes>, queue: seq<Bytes>, since: seq<Bytes>, more: seq<Bytes>)
    requires Flows(returned, line, queue, since) && !NoneOver(line + more, LARGEST_SAFE)
    ensures !NoneOver(queue + (since + more), LARGEST_SAFE)
  {
    var i :| 0 <= i < |line + more| && |(line + more)[i]| > LARGEST_SAFE;
    assert queue + (since + more) == (returned + line) + more;
    assert (queue + (since + more))[|returned| + i] == (line + more)[i];
  }
}

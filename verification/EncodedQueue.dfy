/** client/components/audio_buffer/encoded_queue.c: a fixed number of fixed-size slots in one
    flat arena, used as a bounded packet queue that drops the oldest. */
module EncodedQueue {
  import opened Bytes
  import opened RingIndex
  import opened Seqs
  import opened Wrappers

  // ---- Specification ---------------------------------------------------------------------

  datatype Queue = Queue(
    packets: seq<seq<byte>>, dropped: nat, rejected: nat, pushed: nat, popped: nat, highWater: nat)

  const EMPTY := Queue([], 0, 0, 0, 0, 0)

  /** A bounded first-in first-out queue; -1, 0 and 1 as the source returns them. */
  function PushTo(q: Queue, slots: nat, slotSize: nat, data: seq<byte>): (Queue, int) {
    if slots == 0 then (q, -1)
    else if |data| > slotSize then (q.(rejected := q.rejected + 1), 0)
    else
      var full := |q.packets| >= slots;
      var kept := if full then q.packets[1..] else q.packets;
      (q.(packets := kept + [data], dropped := q.dropped + (if full then 1 else 0), pushed := q.pushed + 1,
          highWater := if |kept| + 1 > q.highWater then |kept| + 1 else q.highWater), 1)
  }

  function PopFrom(q: Queue, cap: nat): (Queue, int, Option<seq<byte>>) {
    if q.packets == [] then (q, 0, None)
    else if |q.packets[0]| > cap then (q, -1, None)
    else (q.(packets := q.packets[1..], popped := q.popped + 1), 1, Some(q.packets[0]))
  }

  /** What every operation keeps. */
  ghost predicate Sound(q: Queue, slots: nat, slotSize: nat) {
    && |q.packets| <= q.highWater <= slots
    && (forall i :: 0 <= i < |q.packets| ==> |q.packets[i]| <= slotSize)
    && q.pushed == q.popped + |q.packets| + q.dropped
  }

  datatype Op = Push(data: seq<byte>) | Pop(cap: nat)

  function Apply(q: Queue, slots: nat, slotSize: nat, op: Op): Queue {
    match op
    case Push(data) => PushTo(q, slots, slotSize, data).0
    case Pop(cap) => PopFrom(q, cap).0
  }

  function Run(q: Queue, slots: nat, slotSize: nat, ops: seq<Op>): Queue
    decreases ops
  {
    if ops == [] then q else Run(Apply(q, slots, slotSize, ops[0]), slots, slotSize, ops[1..])
  }

  /** The packet one operation returns, if any. */
  function Out(q: Queue, op: Op): seq<seq<byte>> {
    if op.Pop? && PopFrom(q, op.cap).2.Some? then [PopFrom(q, op.cap).2.value] else []
  }

  /** The packet one operation accepts, if any. */
  function In(slots: nat, slotSize: nat, op: Op): seq<seq<byte>> {
    if op.Push? && slots > 0 && |op.data| <= slotSize then [op.data] else []
  }

  /** Whether the operation is a push too large for a slot. */
  predicate TooLarge(slots: nat, slotSize: nat, op: Op) {
    op.Push? && slots > 0 && |op.data| > slotSize
  }

  /** How many pushes of a run are too large for a slot. */
  function TooLargeCount(slots: nat, slotSize: nat, ops: seq<Op>): nat {
    if ops == [] then 0
    else (if TooLarge(slots, slotSize, ops[0]) then 1 else 0) + TooLargeCount(slots, slotSize, ops[1..])
  }

  /** The packets pops have returned over a run. */
  function Returned(q: Queue, slots: nat, slotSize: nat, ops: seq<Op>): seq<seq<byte>>
    decreases ops
  {
    if ops == [] then []
    else Out(q, ops[0]) + Returned(Apply(q, slots, slotSize, ops[0]), slots, slotSize, ops[1..])
  }

  /** The packets pushes have accepted over a run. */
  function Accepted(slots: nat, slotSize: nat, ops: seq<Op>): seq<seq<byte>> {
    if ops == [] then [] else In(slots, slotSize, ops[0]) + Accepted(slots, slotSize, ops[1..])
  }

  /** One operation: what it returned and still holds, against what it held and accepted. */
  ghost predicate IsFifoStep(q: Queue, slots: nat, slotSize: nat, op: Op) {
    var q1, out, more := Apply(q, slots, slotSize, op), Out(q, op), In(slots, slotSize, op);
    && Sound(q1, slots, slotSize)
    && |out| == q1.popped - q.popped && |more| == q1.pushed - q.pushed
    && (out + q1.packets == q.packets + more
        || (out == [] && q.packets + more != [] && q1.packets == (q.packets + more)[1..]))
    && q1.dropped >= q.dropped && (q1.dropped > q.dropped ==> |q.packets| == slots)
    && (q1.dropped == q.dropped ==> out + q1.packets == q.packets + more)
    && q1.rejected == q.rejected + (if TooLarge(slots, slotSize, op) then 1 else 0)
  }

  lemma PopIsFifo(q: Queue, slots: nat, slotSize: nat, cap: nat)
    requires Sound(q, slots, slotSize)
    ensures IsFifoStep(q, slots, slotSize, Pop(cap))
  {
    assert q.packets != [] ==> [q.packets[0]] + q.packets[1..] == q.packets;
    assert q.packets + [] == q.packets && [] + q.packets == q.packets;
  }

  lemma PushIsSound(q: Queue, slots: nat, slotSize: nat, data: seq<byte>)
    requires Sound(q, slots, slotSize)
    ensures Sound(PushTo(q, slots, slotSize, data).0, slots, slotSize)
  {
  }

  lemma PushIsFifo(q: Queue, slots: nat, slotSize: nat, data: seq<byte>)
    requires Sound(q, slots, slotSize)
    ensures IsFifoStep(q, slots, slotSize, Push(data))
  {
    PushIsSound(q, slots, slotSize, data);
    assert |q.packets| <= slots && (|q.packets| >= slots ==> |q.packets| == slots);
    hide Sound;
    assert q.packets != [] ==> (q.packets + [data])[1..] == q.packets[1..] + [data];
    assert q.packets + [] == q.packets && [] + q.packets == q.packets
           && [] + (q.packets + [data]) == q.packets + [data];
  }

  /** Every operation keeps the counters, returns the oldest packet or drops it, and drops only when
      every slot is taken. */
  lemma OpIsFifo(q: Queue, slots: nat, slotSize: nat, op: Op)
    requires Sound(q, slots, slotSize)
    ensures IsFifoStep(q, slots, slotSize, op)
  {
    hide IsFifoStep;
    match op {
      case Pop(cap) => PopIsFifo(q, slots, slotSize, cap);
      case Push(data) => PushIsFifo(q, slots, slotSize, data);
    }
  }

  /** Over every run the counters balance, sizes stay bounded, and what was returned, followed
      by what is still queued, is the accepted packets in order with only dropped ones left
      out: with no drop counted, exactly the accepted packets; and the pushes too large for a slot
      are counted. */
  lemma {:induction false} RunIsFifo(q: Queue, slots: nat, slotSize: nat, ops: seq<Op>)
    requires Sound(q, slots, slotSize)
    ensures var e := Run(q, slots, slotSize, ops);
            && Sound(e, slots, slotSize)
            && |Returned(q, slots, slotSize, ops)| == e.popped - q.popped
            && |Accepted(slots, slotSize, ops)| == e.pushed - q.pushed
            && e.rejected == q.rejected + TooLargeCount(slots, slotSize, ops)
            && Subsequence(Returned(q, slots, slotSize, ops) + e.packets, q.packets + Accepted(slots, slotSize, ops))
            && e.dropped >= q.dropped
            && (e.dropped == q.dropped ==>
                  Returned(q, slots, slotSize, ops) + e.packets == q.packets + Accepted(slots, slotSize, ops))
    decreases ops
  {
    if ops == [] {
      assert [] + q.packets == q.packets && q.packets + [] == q.packets;
      SubsequenceAll(q.packets);
    } else {
      var q1 := Apply(q, slots, slotSize, ops[0]);
      OpIsFifo(q, slots, slotSize, ops[0]);
      RunIsFifo(q1, slots, slotSize, ops[1..]);
      JoinSubsequence(q.packets, In(slots, slotSize, ops[0]), Out(q, ops[0]), q1.packets,
                      Returned(q1, slots, slotSize, ops[1..]), Run(q1, slots, slotSize, ops[1..]).packets,
                      Accepted(slots, slotSize, ops[1..]));
      RegroupRun(q.packets, In(slots, slotSize, ops[0]), Out(q, ops[0]), q1.packets,
                 Returned(q1, slots, slotSize, ops[1..]), Run(q1, slots, slotSize, ops[1..]).packets,
                 Accepted(slots, slotSize, ops[1..]));
    }
  }

  lemma RegroupRun<T>(held: seq<T>, more: seq<T>, out: seq<T>, held1: seq<T>, outs: seq<T>, end: seq<T>, later: seq<T>)
    ensures out + held1 == held + more && outs + end == held1 + later ==> (out + outs) + end == held + (more + later)
  {
    assert (out + outs) + end == out + (outs + end);
    assert held + (more + later) == (held + more) + later && out + (held1 + later) == (out + held1) + later;
  }

  lemma JoinSubsequence<T>(
    held: seq<T>, more: seq<T>, out: seq<T>, held1: seq<T>, outs: seq<T>, end: seq<T>, later: seq<T>)
    requires Subsequence(outs + end, held1 + later)
    requires out + held1 == held + more
             || (out == [] && held + more != [] && held1 == (held + more)[1..])
    ensures Subsequence(out + outs + end, held + (more + later))
  {
    ConcatAssoc(held, more, later);
    ConcatAssoc(out, outs, end);
    if out + held1 == held + more {
      ConcatAssoc(out, held1, later);
      SubsequencePrefix(out, outs + end, held1 + later);
    } else {
      SubsequenceSkip(outs + end, held + more, later);
      assert out + (outs + end) == outs + end;
    }
  }

  /** What the return codes tell: a push answers 1 when its packet is queued last, 0 when it is too large,
      -1 without slots; a pop answers 1 when it returns the oldest packet, 0 when there is none, -1 when
      that packet exceeds the caller's buffer, which leaves the queue as it was. */
  lemma AnswersTell(q: Queue, slots: nat, slotSize: nat, data: seq<byte>, cap: nat)
    requires Sound(q, slots, slotSize)
    ensures var (q1, code) := PushTo(q, slots, slotSize, data);
            && -1 <= code <= 1 && (code == -1 <==> slots == 0) && (code == 0 <==> slots > 0 && |data| > slotSize)
            && (code == 1 ==> q1.packets != [] && q1.packets[|q1.packets| - 1] == data && q1.pushed == q.pushed + 1)
            && (code != 1 ==> q1.packets == q.packets && q1.pushed == q.pushed)
    ensures var (q1, code, out) := PopFrom(q, cap);
            && -1 <= code <= 1 && (code == 0 <==> q.packets == []) && (out.Some? <==> code == 1)
            && (code == -1 <==> q.packets != [] && |q.packets[0]| > cap)
            && (code == 1 ==> [out.value] + q1.packets == q.packets) && (code != 1 ==> q1 == q)
  {
    assert q.packets != [] ==> [q.packets[0]] + q.packets[1..] == q.packets;
  }

  /** Every operation is a pop whose buffer takes any slot. */
  ghost predicate Drains(slotSize: nat, ops: seq<Op>) {
    forall i :: 0 <= i < |ops| ==> ops[i].Pop? && ops[i].cap >= slotSize
  }

  /** Nothing gets stuck: n pops return the n oldest packets in order and leave the rest; as many pops as
      there are packets, or more, return them all and leave none. */
  lemma {:induction false} PopsDrain(q: Queue, slots: nat, slotSize: nat, ops: seq<Op>)
    requires Sound(q, slots, slotSize) && Drains(slotSize, ops)
    ensures var n := if |ops| < |q.packets| then |ops| else |q.packets|;
            && Returned(q, slots, slotSize, ops) == q.packets[..n]
            && Run(q, slots, slotSize, ops) == q.(packets := q.packets[n..], popped := q.popped + n)
    decreases ops
  {
    if ops != [] {
      var q1 := Apply(q, slots, slotSize, ops[0]);
      PopIsFifo(q, slots, slotSize, ops[0].cap);
      PopsDrain(q1, slots, slotSize, ops[1..]);
      if q.packets != [] {
        assert q.packets == [q.packets[0]] + q1.packets;
      }
    }
  }

  /** How many packets are held after the first n operations. */
  function HeldAfter(q: Queue, slots: nat, slotSize: nat, ops: seq<Op>, n: nat): nat
    requires n <= |ops|
  {
    |Run(q, slots, slotSize, ops[..n]).packets|
  }

  /** The high-water mark is the most packets the queue ever held: never exceeded, and reached unless an
      earlier run left it higher. */
  lemma {:induction false} HighWaterIsTheMost(q: Queue, slots: nat, slotSize: nat, ops: seq<Op>)
    requires Sound(q, slots, slotSize)
    ensures var high := Run(q, slots, slotSize, ops).highWater;
            && q.highWater <= high && (forall n: nat :: n <= |ops| ==> HeldAfter(q, slots, slotSize, ops, n) <= high)
            && (high == q.highWater || exists n: nat :: n <= |ops| && HeldAfter(q, slots, slotSize, ops, n) == high)
    decreases ops
  {
    hide Sound;
    hide Apply;
    HeldAtFirst(q, slots, slotSize, ops);
    if ops != [] {
      var q1 := Apply(q, slots, slotSize, ops[0]);
      OpIsFifo(q, slots, slotSize, ops[0]);
      HighWaterIsTheMost(q1, slots, slotSize, ops[1..]);
      HighWaterStep(q, slots, slotSize, ops[0]);
      HeldLater(q, slots, slotSize, ops);
      HeldAtFirst(q1, slots, slotSize, ops[1..]);
      hide HeldAfter;
      var high := Run(q, slots, slotSize, ops).highWater;
      if n: nat :| n <= |ops[1..]| && HeldAfter(q1, slots, slotSize, ops[1..], n) == high {
        assert HeldAfter(q, slots, slotSize, ops, n + 1) == HeldAfter(q1, slots, slotSize, ops[1..], n);
      } else {
        assert HeldAfter(q, slots, slotSize, ops, 1) == |q1.packets|;
      }
    }
  }

  lemma HeldAtFirst(q: Queue, slots: nat, slotSize: nat, ops: seq<Op>)
    requires Sound(q, slots, slotSize)
    ensures HeldAfter(q, slots, slotSize, ops, 0) == |q.packets| <= q.highWater
  {
  }

  lemma HighWaterStep(q: Queue, slots: nat, slotSize: nat, op: Op)
    requires Sound(q, slots, slotSize)
    ensures var q1 := Apply(q, slots, slotSize, op);
            q.highWater <= q1.highWater && (q1.highWater == q.highWater || q1.highWater == |q1.packets|)
  {
  }

  lemma HeldLater(q: Queue, slots: nat, slotSize: nat, ops: seq<Op>)
    requires ops != []
    ensures forall n: nat :: 1 <= n <= |ops| ==>
              HeldAfter(q, slots, slotSize, ops, n)
              == HeldAfter(Apply(q, slots, slotSize, ops[0]), slots, slotSize, ops[1..], n - 1)
  {
    forall n: nat | 1 <= n <= |ops|
      ensures HeldAfter(q, slots, slotSize, ops, n)
              == HeldAfter(Apply(q, slots, slotSize, ops[0]), slots, slotSize, ops[1..], n - 1)
    {
      assert ops[..n][1..] == ops[1..][..n - 1];
    }
  }

  // ---- The queue ---------------------------------------------------------------------------

  class EncodedQueue {
    const arena: array<byte>
    const lengths: array<nat>
    const slots: nat
    const slotSize: nat
    var head: nat
    var count: nat
    var highWater: nat
    var dropCount: nat
    var rejectCount: nat
    var totalPushed: nat
    var totalPopped: nat

    ghost predicate Valid()
      reads this, lengths
    {
      && arena.Length == Off(slots, slotSize) && lengths.Length == slots && count <= slots
      && (slots > 0 ==> head < slots)
      && (forall t :: 0 <= t < slots ==> lengths[t] <= slotSize)
    }

    /** Where slot t starts in the arena. */
    static function Off(t: nat, slotSize: nat): nat {
      t * slotSize
    }

    static lemma SlotFits(t: nat, slots: nat, slotSize: nat)
      requires t < slots
      ensures Off(t, slotSize) + slotSize <= Off(slots, slotSize)
    {
      assert (t + 1) * slotSize <= slots * slotSize;
    }

    static lemma SlotsApart(t: nat, u: nat, slotSize: nat)
      requires t != u
      ensures Off(t, slotSize) + slotSize <= Off(u, slotSize) || Off(u, slotSize) + slotSize <= Off(t, slotSize)
    {
      if t < u {
        assert (t + 1) * slotSize <= u * slotSize;
      } else {
        assert (u + 1) * slotSize <= t * slotSize;
      }
    }

    /** The bytes in slot t. */
    static ghost function Stored(a: seq<byte>, t: nat, len: nat, slots: nat, slotSize: nat): seq<byte>
      requires |a| == Off(slots, slotSize) && t < slots && len <= slotSize
    {
      SlotFits(t, slots, slotSize);
      a[Off(t, slotSize)..Off(t, slotSize) + len]
    }

    static ghost function View(a: seq<byte>, ls: seq<nat>, head: nat, count: nat, slotSize: nat): seq<seq<byte>>
      requires |a| == Off(|ls|, slotSize) && count <= |ls| && (|ls| > 0 ==> head < |ls|)
      requires forall t :: 0 <= t < |ls| ==> ls[t] <= slotSize
    {
      seq(count, i requires 0 <= i < count =>
        Stored(a, Slot(head, i, |ls|), ls[Slot(head, i, |ls|)], |ls|, slotSize))
    }

    ghost function Abs(): Queue
      requires Valid()
      reads this, arena, lengths
    {
      assert forall t :: 0 <= t < |lengths[..]| ==> lengths[..][t] == lengths[t];
      Queue(View(arena[..], lengths[..], head, count, slotSize),
            dropCount, rejectCount, totalPushed, totalPopped, highWater)
    }

    constructor (slots: nat, slotSize: nat)
      ensures Valid() && fresh(arena) && fresh(lengths)
      ensures this.slots == slots && this.slotSize == slotSize && Abs() == EMPTY
    {
      arena := new byte[Off(slots, slotSize)];
      lengths := new nat[slots](_ => 0);
      this.slots, this.slotSize := slots, slotSize;
      head, count, highWater, dropCount, rejectCount, totalPushed, totalPopped := 0, 0, 0, 0, 0, 0, 0;
    }

    static lemma ViewDropFirst(a: seq<byte>, ls: seq<nat>, head: nat, count: nat, slotSize: nat)
      requires |a| == Off(|ls|, slotSize) && 0 < count <= |ls| && head < |ls|
      requires forall t :: 0 <= t < |ls| ==> ls[t] <= slotSize
      ensures var view := View(a, ls, head, count, slotSize);
              && |view| == count && view[0] == Stored(a, head, ls[head], |ls|, slotSize)
              && View(a, ls, Slot(head, 1, |ls|), count - 1, slotSize) == view[1..]
    {
      hide Off;
      hide Stored;
      forall i | 0 <= i < count - 1 ensures Slot(Slot(head, 1, |ls|), i, |ls|) == Slot(head, i + 1, |ls|) {
        SlotShift(head, 1, i, |ls|);
      }
    }

    /** Writing the free tail slot appends one packet and leaves the queued ones alone. */
    static lemma ViewAppend(
      a: seq<byte>, ls: seq<nat>, a': seq<byte>, ls': seq<nat>, head: nat, count: nat, slotSize: nat, data: seq<byte>)
      requires |a| == Off(|ls|, slotSize) && |a'| == |a| && |ls'| == |ls| && count < |ls| && head < |ls|
               && |data| <= slotSize
      requires forall t :: 0 <= t < |ls| ==> ls[t] <= slotSize && ls'[t] <= slotSize
      requires var t := Slot(head, count, |ls|);
               && ls' == ls[t := |data|]
               && (forall i :: 0 <= i < |a| && !(Off(t, slotSize) <= i < Off(t, slotSize) + |data|) ==> a'[i] == a[i])
               && Stored(a', t, |data|, |ls|, slotSize) == data
      ensures View(a', ls', head, count + 1, slotSize) == View(a, ls, head, count, slotSize) + [data]
    {
      hide Off;
      var t := Slot(head, count, |ls|);
      forall i | 0 <= i < count
        ensures View(a', ls', head, count + 1, slotSize)[i] == View(a, ls, head, count, slotSize)[i]
      {
        var u := Slot(head, i, |ls|);
        SlotsDiffer(head, i, count, |ls|);
        SlotsApart(t, u, slotSize);
        SlotFits(u, |ls|, slotSize);
      }
    }

    /** memcpy into slot t. */
    method Fill(t: nat, data: seq<byte>)
      requires Valid() && t < slots && |data| <= slotSize
      modifies arena
      ensures Stored(arena[..], t, |data|, slots, slotSize) == data
      ensures forall i :: 0 <= i < arena.Length && !(Off(t, slotSize) <= i < Off(t, slotSize) + |data|) ==>
                 arena[i] == old(arena[i])
    {
      SlotFits(t, slots, slotSize);
      hide Off;
      var base := Off(t, slotSize);
      forall i | 0 <= i < |data| {
        arena[base + i] := data[i];
      }
    }

    method Advance()
      requires Valid() && count > 0
      modifies this`head, this`count
      ensures Valid() && count == old(count) - 1
      ensures Abs().packets == old(Abs()).packets[1..] && |old(Abs()).packets| == old(count)
    {
      hide Wrapped;
      hide Off;
      hide Stored;
      NextSlot(head, 1, slots);
      ViewDropFirst(arena[..], lengths[..], head, count, slotSize);
      head := Wrapped(head + 1, slots);
      count := count - 1;
    }

    method Append(data: seq<byte>)
      requires Valid() && count < slots && |data| <= slotSize
      modifies this`count, arena, lengths
      ensures Valid() && count == old(count) + 1
      ensures Abs().packets == old(Abs()).packets + [data]
    {
      hide Wrapped;
      hide Off;
      hide Stored;
      ghost var a, ls := arena[..], lengths[..];
      NextSlot(head, count, slots);
      var tail := Wrapped(head + count, slots);
      Fill(tail, data);
      lengths[tail] := |data|;
      ViewAppend(a, ls, arena[..], lengths[..], head, count, slotSize, data);
      count := count + 1;
    }

    method Push(data: seq<byte>) returns (r: int)
      requires Valid()
      modifies this, arena, lengths
      ensures Valid() && (Abs(), r) == PushTo(old(Abs()), slots, slotSize, data)
    {
      hide Off;
      hide Stored;
      if slots == 0 {
        return -1;
      }
      if |data| > slotSize {
        rejectCount := rejectCount + 1;
        return 0;
      }
      if count == slots {
        Advance();
        dropCount := dropCount + 1;
      }
      Append(data);
      totalPushed := totalPushed + 1;
      if count > highWater {
        highWater := count;
      }
      return 1;
    }

    /** memcpy out of slot t. */
    method CopyOut(t: nat, len: nat, out: array<byte>)
      requires Valid() && t < slots && len <= slotSize && len <= out.Length && out != arena
      modifies out
      ensures out[..len] == Stored(arena[..], t, len, slots, slotSize)
    {
      SlotFits(t, slots, slotSize);
      hide Off;
      var base := Off(t, slotSize);
      forall i | 0 <= i < len {
        out[i] := arena[base + i];
      }
    }

    /** The packet is delivered in the first bytes of out. */
    method Pop(out: array<byte>) returns (r: int, len: nat)
      requires Valid() && out != arena
      modifies this, out
      ensures Valid() && (Abs(), r) == (PopFrom(old(Abs()), out.Length).0, PopFrom(old(Abs()), out.Length).1)
      ensures match PopFrom(old(Abs()), out.Length).2
              case Some(packet) => len == |packet| <= out.Length && out[..len] == packet
              case None => len == 0 && out[..] == old(out[..])
    {
      hide Off;
      hide Stored;
      if count == 0 {
        return 0, 0;
      }
      HeadPacket();
      len := lengths[head];
      if len > out.Length {
        return -1, 0;
      }
      CopyOut(head, len, out);
      Advance();
      totalPopped := totalPopped + 1;
      r := 1;
    }

    lemma HeadPacket()
      requires Valid() && count > 0
      ensures |Abs().packets| == count && |Abs().packets[0]| == lengths[head]
      ensures Abs().packets[0] == Stored(arena[..], head, lengths[head], slots, slotSize)
    {
      ViewDropFirst(arena[..], lengths[..], head, count, slotSize);
      SlotFits(head, slots, slotSize);
    }
  }
}

/** client/components/audio_buffer/pcm_ring.c: a fixed ring of samples that drops the oldest. */
module PcmRing {
  import opened RingIndex

  // ---- Specification ---------------------------------------------------------------------

  /** (size_t)-1 on the 32-bit targets: no non-empty state seen yet. */
  const NO_LOW_WATER := 0xffff_ffff

  /** A bounded sequence with its counters and marks. */
  datatype Ring<T> = Ring(
    contents: seq<T>, overflow: nat, written: nat, read: nat, highWater: nat, lowWater: nat)

  function LastOf<T>(s: seq<T>, n: nat): (r: seq<T>) {
    if |s| <= n then s else s[|s| - n..]
  }

  function Min(a: nat, b: nat): nat {
    if a < b then a else b
  }

  /** Both marks after the contents changed. */
  function Marked<T>(r: Ring<T>): Ring<T> {
    r.(highWater := if |r.contents| > r.highWater then |r.contents| else r.highWater,
       lowWater := if 0 < |r.contents| < r.lowWater then |r.contents| else r.lowWater)
  }

  function WriteTo<T>(r: Ring<T>, capacity: nat, samples: seq<T>): Ring<T> {
    if capacity == 0 then r
    else
      var kept := LastOf(r.contents + samples, capacity);
      Marked(r.(contents := kept, overflow := r.overflow + (|r.contents| + |samples| - |kept|),
                written := r.written + Min(|samples|, capacity)))
  }

  function ReadFrom<T>(r: Ring<T>, n: nat): (Ring<T>, seq<T>) {
    var k := Min(n, |r.contents|);
    (Marked(r.(contents := r.contents[k..], read := r.read + k)), r.contents[..k])
  }

  // ---- Runs ------------------------------------------------------------------------------

  datatype Op<T> = Write(samples: seq<T>) | Read(n: nat)

  function Offered<T>(ops: seq<Op<T>>): seq<T> {
    if ops == [] then []
    else (if ops[0].Write? then ops[0].samples else []) + Offered(ops[1..])
  }

  /** What one read returned, and where in the offered stream it starts. */
  datatype Taken<T> = Taken(at: nat, samples: seq<T>)

  function Run<T>(r: Ring<T>, capacity: nat, ops: seq<Op<T>>): (Ring<T>, seq<Taken<T>>)
    decreases ops
  {
    if ops == [] then (r, [])
    else
      match ops[0]
      case Write(samples) => Run(WriteTo(r, capacity, samples), capacity, ops[1..])
      case Read(n) =>
        var (r1, out) := ReadFrom(r, n);
        var (r2, outs) := Run(r1, capacity, ops[1..]);
        (r2, [Taken(r.read + r.overflow, out)] + outs)
  }

  ghost predicate IsSlice<T>(part: seq<T>, all: seq<T>, at: nat) {
    at + |part| <= |all| && part == all[at..at + |part|]
  }

  /** The reads are stretches of the offered stream, in stream order and disjoint. */
  ghost predicate Deliver<T>(outs: seq<Taken<T>>, all: seq<T>, from: nat)
    decreases outs
  {
    outs == [] ||
    (from <= outs[0].at && IsSlice(outs[0].samples, all, outs[0].at)
     && Deliver(outs[1..], all, outs[0].at + |outs[0].samples|))
  }

  /** The ring holds the newest samples of everything offered so far, and every sample offered
      was read, is held, or was counted as overflow. */
  ghost predicate Holds<T>(r: Ring<T>, capacity: nat, past: seq<T>) {
    && |r.contents| <= capacity && |past| == r.read + |r.contents| + r.overflow
    && IsSlice(r.contents, past, r.read + r.overflow)
  }

  lemma WriteHolds<T>(r: Ring<T>, capacity: nat, samples: seq<T>, past: seq<T>)
    requires capacity > 0 && Holds(r, capacity, past)
    ensures Holds(WriteTo(r, capacity, samples), capacity, past + samples)
    ensures WriteTo(r, capacity, samples).read == r.read && WriteTo(r, capacity, samples).overflow >= r.overflow
    ensures WriteTo(r, capacity, samples).overflow > r.overflow ==> |WriteTo(r, capacity, samples).contents| == capacity
  {
    var all := past + samples;
    assert r.contents + samples == all[r.read + r.overflow..];
  }

  lemma ReadHolds<T>(r: Ring<T>, capacity: nat, n: nat, past: seq<T>)
    requires Holds(r, capacity, past)
    ensures Holds(ReadFrom(r, n).0, capacity, past)
    ensures IsSlice(ReadFrom(r, n).1, past, r.read + r.overflow)
    ensures ReadFrom(r, n).0.read == r.read + |ReadFrom(r, n).1| && ReadFrom(r, n).0.overflow == r.overflow
  {
  }

  /** Over every run, whatever overflows: the ring holds the newest samples offered, the reads
      deliver stretches of the offered stream in order without repeating a sample, and every
      sample offered was read, is held, or was counted as overflow. */
  lemma {:induction false} RunDelivers<T>(r: Ring<T>, capacity: nat, ops: seq<Op<T>>, past: seq<T>)
    requires capacity > 0 && Holds(r, capacity, past)
    ensures var (e, outs) := Run(r, capacity, ops);
            && Holds(e, capacity, past + Offered(ops))
            && Deliver(outs, past + Offered(ops), r.read + r.overflow)
    decreases ops
  {
    hide WriteTo;
    hide ReadFrom;
    if ops == [] {
      assert past + Offered(ops) == past;
    } else {
      match ops[0]
      case Write(samples) =>
        WriteHolds(r, capacity, samples, past);
        var r1 := WriteTo(r, capacity, samples);
        RunDelivers(r1, capacity, ops[1..], past + samples);
        assert (past + samples) + Offered(ops[1..]) == past + Offered(ops);
        DeliverWeaken(Run(r, capacity, ops).1, past + Offered(ops), r1.read + r1.overflow, r.read + r.overflow);
      case Read(n) =>
        var (r1, out) := ReadFrom(r, n);
        ReadHolds(r, capacity, n, past);
        RunDelivers(r1, capacity, ops[1..], past);
        assert [] + Offered(ops[1..]) == Offered(ops[1..]);
        DeliverCons(Taken(r.read + r.overflow, out), Run(r1, capacity, ops[1..]).1, past, Offered(ops));
    }
  }

  lemma DeliverWeaken<T>(outs: seq<Taken<T>>, all: seq<T>, from: nat, earlier: nat)
    requires Deliver(outs, all, from) && earlier <= from
    ensures Deliver(outs, all, earlier)
  {
  }

  lemma DeliverCons<T>(t: Taken<T>, outs: seq<Taken<T>>, past: seq<T>, more: seq<T>)
    requires IsSlice(t.samples, past, t.at) && Deliver(outs, past + more, t.at + |t.samples|)
    ensures Deliver([t] + outs, past + more, t.at)
  {
    assert ([t] + outs)[1..] == outs;
    assert (past + more)[t.at..t.at + |t.samples|] == past[t.at..t.at + |t.samples|];
  }

  // ---- Reads take what there is ---------------------------------------------------------------

  /** How many samples the reads of a run ask for. */
  function Asked<T>(ops: seq<Op<T>>): nat {
    if ops == [] then 0 else (if ops[0].Read? then ops[0].n else 0) + Asked(ops[1..])
  }

  function Joined<T>(outs: seq<Taken<T>>): seq<T> {
    if outs == [] then [] else outs[0].samples + Joined(outs[1..])
  }

  /** No sample is held back: reads in a row return the oldest samples, as many as they ask for or all there
      are, however they are divided. */
  lemma {:induction false} ReadsDrain<T>(r: Ring<T>, capacity: nat, ops: seq<Op<T>>)
    requires forall i :: 0 <= i < |ops| ==> ops[i].Read?
    ensures var (e, outs) := Run(r, capacity, ops); var k := Min(Asked(ops), |r.contents|);
            Joined(outs) == r.contents[..k] && e.contents == r.contents[k..] && e.read == r.read + k
    decreases ops
  {
    hide ReadFrom;
    hide Joined;
    if ops == [] {
      NoneJoined<T>();
    } else {
      var (r1, out) := ReadFrom(r, ops[0].n);
      ReadTakes(r, ops[0].n);
      ReadsDrain(r1, capacity, ops[1..]);
      JoinTaken(r.read + r.overflow, out, Run(r1, capacity, ops[1..]).1);
      TakeTwice(r.contents, |out|, Min(Asked(ops[1..]), |r1.contents|));
    }
  }

  lemma NoneJoined<T>()
    ensures Joined<T>([]) == []
  {
  }

  lemma ReadTakes<T>(r: Ring<T>, n: nat)
    ensures var (r1, out) := ReadFrom(r, n);
            && out == r.contents[..Min(n, |r.contents|)] && r1.contents == r.contents[|out|..]
            && r1.read == r.read + |out|
  {
  }

  lemma TakeTwice<T>(s: seq<T>, j: nat, k: nat)
    requires j + k <= |s|
    ensures s[..j] + s[j..][..k] == s[..j + k] && s[j..][k..] == s[j + k..]
  {
  }

  lemma JoinTaken<T>(at: nat, out: seq<T>, rest: seq<Taken<T>>)
    ensures Joined([Taken(at, out)] + rest) == out + Joined(rest)
  {
    assert ([Taken(at, out)] + rest)[1..] == rest;
  }

  // ---- Counters and marks ---------------------------------------------------------------------

  /** What writes of these sizes store: a write longer than the ring stores its last samples. */
  function Stored<T>(capacity: nat, ops: seq<Op<T>>): nat {
    if ops == [] then 0
    else (if ops[0].Write? then Min(|ops[0].samples|, capacity) else 0) + Stored(capacity, ops[1..])
  }

  /** The counters over a run: the samples stored, and the samples the reads returned. */
  lemma {:induction false} CountersTell<T>(r: Ring<T>, capacity: nat, ops: seq<Op<T>>)
    ensures var (e, outs) := Run(r, capacity, ops);
            e.written == r.written + Stored(capacity, ops) && e.read == r.read + |Joined(outs)|
    decreases ops
  {
    if ops != [] {
      match ops[0]
      case Write(samples) => CountersTell(WriteTo(r, capacity, samples), capacity, ops[1..]);
      case Read(n) =>
        var (r1, out) := ReadFrom(r, n);
        CountersTell(r1, capacity, ops[1..]);
        JoinTaken(r.read + r.overflow, out, Run(r1, capacity, ops[1..]).1);
    }
  }

  /** How many samples are held after the first n operations. */
  function HeldAfter<T>(r: Ring<T>, capacity: nat, ops: seq<Op<T>>, n: nat): nat
    requires n <= |ops|
  {
    |Run(r, capacity, ops[..n]).0.contents|
  }

  /** The marks enclose what is held, as they do before the first operation. */
  predicate Enclosed<T>(r: Ring<T>, held: nat) {
    held <= r.highWater && (held > 0 ==> r.lowWater <= held)
  }

  /** The marks are the most and the least, apart from zero, that the ring ever held: never passed, and each
      reached unless it is still where it was. */
  lemma {:induction false} MarksAreReached<T>(r: Ring<T>, capacity: nat, ops: seq<Op<T>>)
    requires Enclosed(r, |r.contents|)
    ensures var e := Run(r, capacity, ops).0;
            && r.highWater <= e.highWater && e.lowWater <= r.lowWater
            && (forall n: nat :: n <= |ops| ==> Enclosed(e, HeldAfter(r, capacity, ops, n)))
            && (e.highWater == r.highWater
                || exists n: nat :: n <= |ops| && HeldAfter(r, capacity, ops, n) == e.highWater)
            && (e.lowWater == r.lowWater
                || exists n: nat :: n <= |ops| && 0 < HeldAfter(r, capacity, ops, n) == e.lowWater)
    decreases ops
  {
    HeldAtFirst(r, capacity, ops);
    if ops != [] {
      var r1 := Next(r, capacity, ops[0]);
      MarksStep(r, capacity, ops[0]);
      MarksAreReached(r1, capacity, ops[1..]);
      HeldLater(r, capacity, ops);
      HeldAtFirst(r1, capacity, ops[1..]);
      RunHead(r, capacity, ops);
      hide HeldAfter;
      hide Run;
      hide Next;
      var e := Run(r, capacity, ops).0;
      assert HeldAfter(r, capacity, ops, 1) == |r1.contents|;
      if n: nat :| n <= |ops[1..]| && HeldAfter(r1, capacity, ops[1..], n) == e.highWater {
        assert HeldAfter(r, capacity, ops, n + 1) == HeldAfter(r1, capacity, ops[1..], n);
      }
      if n: nat :| n <= |ops[1..]| && 0 < HeldAfter(r1, capacity, ops[1..], n) == e.lowWater {
        assert HeldAfter(r, capacity, ops, n + 1) == HeldAfter(r1, capacity, ops[1..], n);
      }
    }
  }

  /** The ring after one operation. */
  function Next<T>(r: Ring<T>, capacity: nat, op: Op<T>): Ring<T> {
    match op
    case Write(samples) => WriteTo(r, capacity, samples)
    case Read(n) => ReadFrom(r, n).0
  }

  lemma RunHead<T>(r: Ring<T>, capacity: nat, ops: seq<Op<T>>)
    requires ops != []
    ensures Run(r, capacity, ops).0 == Run(Next(r, capacity, ops[0]), capacity, ops[1..]).0
  {
  }

  lemma MarksStep<T>(r: Ring<T>, capacity: nat, op: Op<T>)
    requires Enclosed(r, |r.contents|)
    ensures var r1 := Next(r, capacity, op);
            && Enclosed(r1, |r1.contents|) && r.highWater <= r1.highWater && r1.lowWater <= r.lowWater
            && (r1.highWater == r.highWater || r1.highWater == |r1.contents|)
            && (r1.lowWater == r.lowWater || 0 < r1.lowWater == |r1.contents|)
  {
  }

  lemma HeldAtFirst<T>(r: Ring<T>, capacity: nat, ops: seq<Op<T>>)
    ensures HeldAfter(r, capacity, ops, 0) == |r.contents|
  {
  }

  lemma HeldLater<T>(r: Ring<T>, capacity: nat, ops: seq<Op<T>>)
    requires ops != []
    ensures forall n: nat :: 1 <= n <= |ops| ==>
              HeldAfter(r, capacity, ops, n) == HeldAfter(Next(r, capacity, ops[0]), capacity, ops[1..], n - 1)
  {
    forall n: nat | 1 <= n <= |ops|
      ensures HeldAfter(r, capacity, ops, n) == HeldAfter(Next(r, capacity, ops[0]), capacity, ops[1..], n - 1)
    {
      assert ops[..n][1..] == ops[1..][..n - 1] && ops[..n][0] == ops[0];
    }
  }

  // ---- Channels --------------------------------------------------------------------------

  /** Interleaved stereo: left samples at even offsets. */
  datatype Tagged = Tagged(left: bool, value: int)

  ghost predicate Stereo(s: seq<Tagged>) {
    |s| % 2 == 0 && forall i :: 0 <= i < |s| ==> (s[i].left <==> i % 2 == 0)
  }

  /** The capture task offers whole stereo chunks or drops them whole; the encoder reads whole
      frames. */
  ghost predicate StereoOps(ops: seq<Op<Tagged>>) {
    forall i :: 0 <= i < |ops| ==>
      match ops[i] case Write(samples) => Stereo(samples) case Read(n) => n % 2 == 0
  }

  lemma StereoConcat(s: seq<Tagged>, t: seq<Tagged>)
    requires Stereo(s) && Stereo(t)
    ensures Stereo(s + t)
  {
    forall i | 0 <= i < |s + t| ensures (s + t)[i].left <==> i % 2 == 0 {
      if i >= |s| {
        EvenShift(|s|, i - |s|);
      }
    }
    EvenShift(|s|, |t|);
  }

  lemma StereoSplit(s: seq<Tagged>, k: nat)
    requires Stereo(s) && k <= |s| && k % 2 == 0
    ensures Stereo(s[..k]) && Stereo(s[k..])
  {
    EvenShift(k, |s| - k);
    forall i | 0 <= i < |s| - k ensures s[k..][i].left <==> i % 2 == 0 {
      EvenShift(k, i);
    }
  }

  lemma EvenShift(k: nat, i: nat)
    requires k % 2 == 0
    ensures (k + i) % 2 == i % 2
  {
  }

  lemma WriteKeepsStereo(r: Ring<Tagged>, capacity: nat, samples: seq<Tagged>)
    requires capacity % 2 == 0 && Stereo(r.contents) && Stereo(samples)
    ensures Stereo(WriteTo(r, capacity, samples).contents)
  {
    hide Stereo;
    var all := r.contents + samples;
    StereoConcat(r.contents, samples);
    if capacity > 0 && |all| > capacity {
      assert |all| % 2 == 0 by { StereoIsEven(all); }
      EvenShift(capacity, |all| - capacity);
      StereoSplit(all, |all| - capacity);
    }
  }

  lemma StereoIsEven(s: seq<Tagged>)
    requires Stereo(s)
    ensures |s| % 2 == 0
  {
  }

  /** Left stays left on every run: with an even capacity every overflow drops whole stereo
      pairs, so whatever the encoder reads starts with a left sample. */
  lemma {:induction false} ChannelsStayAligned(r: Ring<Tagged>, capacity: nat, ops: seq<Op<Tagged>>)
    requires capacity % 2 == 0 && Stereo(r.contents) && StereoOps(ops)
    ensures var (e, outs) := Run(r, capacity, ops);
            Stereo(e.contents) && forall i :: 0 <= i < |outs| ==> Stereo(outs[i].samples)
    decreases ops
  {
    if ops != [] {
      assert StereoOps(ops[1..]);
      match ops[0]
      case Write(samples) =>
        WriteKeepsStereo(r, capacity, samples);
        ChannelsStayAligned(WriteTo(r, capacity, samples), capacity, ops[1..]);
      case Read(n) =>
        var (r1, out) := ReadFrom(r, n);
        StereoSplit(r.contents, Min(n, |r.contents|));
        ChannelsStayAligned(r1, capacity, ops[1..]);
    }
  }

  /** client/components/audio_manager/audio_manager.c: the two ring sizes in samples. */
  function RingSamples(hasPsram: bool): nat {
    (48000 * (if hasPsram then 200 else 80) / 1000) * 2
  }

  const OPUS_FRAME_SAMPLES := 1920

  lemma RingSizesAreEven(hasPsram: bool)
    ensures RingSamples(hasPsram) % 2 == 0 && RingSamples(hasPsram) == OPUS_FRAME_SAMPLES * (if hasPsram then 10 else 4)
  {
  }

  // ---- The ring ----------------------------------------------------------------------------

  class PcmRing {
    const buf: array<int>
    var head: nat
    var count: nat
    var highWater: nat
    var lowWater: nat
    var overflowCount: nat
    var totalWritten: nat
    var totalRead: nat

    ghost predicate Valid()
      reads this
    {
      count <= buf.Length && (buf.Length > 0 ==> head < buf.Length)
    }

    static ghost function View(b: seq<int>, head: nat, count: nat): seq<int>
      requires count <= |b| && (|b| > 0 ==> head < |b|)
    {
      seq(count, i requires 0 <= i < count => b[Slot(head, i, |b|)])
    }

    ghost function Abs(): Ring<int>
      requires Valid()
      reads this, buf
    {
      Ring(View(buf[..], head, count), overflowCount, totalWritten, totalRead, highWater, lowWater)
    }

    constructor (storage: array<int>)
      ensures Valid() && buf == storage && Abs() == Ring([], 0, 0, 0, 0, NO_LOW_WATER)
    {
      buf := storage;
      head, count, highWater, lowWater := 0, 0, 0, NO_LOW_WATER;
      overflowCount, totalWritten, totalRead := 0, 0, 0;
    }

    method UpdateWatermarks()
      requires Valid()
      modifies this`highWater, this`lowWater
      ensures Valid() && Abs() == Marked(old(Abs()))
    {
      if count > highWater {
        highWater := count;
      }
      if count > 0 && count < lowWater {
        lowWater := count;
      }
    }

    /** Store samples at the tail; there must be room. */
    method Append(samples: seq<int>)
      requires Valid() && buf.Length > 0 && count + |samples| <= buf.Length
      modifies this`count, buf
      ensures Valid() && count == old(count) + |samples|
      ensures View(buf[..], head, count) == View(old(buf[..]), head, old(count)) + samples
    {
      hide View;
      hide Slot;
      hide Wrapped;
      ghost var before := buf[..];
      NextSlot(head, count, buf.Length);
      var tail := Wrapped(head + count, buf.Length);
      for i := 0 to |samples|
        invariant count == old(count) && tail < buf.Length
        invariant i < buf.Length - count ==> tail == Slot(head, count + i, buf.Length)
        invariant forall j :: 0 <= j < count ==> buf[Slot(head, j, buf.Length)] == before[Slot(head, j, buf.Length)]
        invariant forall j :: 0 <= j < i ==> buf[Slot(head, count + j, buf.Length)] == samples[j]
      {
        forall j | 0 <= j < count + i ensures Slot(head, j, buf.Length) != tail {
          SlotsDiffer(head, j, count + i, buf.Length);
        }
        buf[tail] := samples[i];
        SlotWraps(head, count + i, buf.Length);
        tail := Wrapped(tail + 1, buf.Length);
      }
      ViewAppend(before, buf[..], head, count, samples);
      count := count + |samples|;
    }

    static lemma ViewAppend(before: seq<int>, after: seq<int>, head: nat, count: nat, samples: seq<int>)
      requires |before| == |after| && count + |samples| <= |after| && head < |after|
      requires forall j :: 0 <= j < count ==> after[Slot(head, j, |after|)] == before[Slot(head, j, |after|)]
      requires forall j :: 0 <= j < |samples| ==> after[Slot(head, count + j, |after|)] == samples[j]
      ensures View(after, head, count + |samples|) == View(before, head, count) + samples
    {
      var view := View(after, head, count + |samples|);
      assert forall j :: 0 <= j < |samples| ==> view[count + j] == samples[j];
    }

    /** Forget the oldest samples. */
    method DropOldest(drop: nat)
      requires Valid() && buf.Length > 0 && drop <= count
      modifies this`head, this`count, this`overflowCount
      ensures Valid() && count == old(count) - drop && overflowCount == old(overflowCount) + drop
      ensures View(buf[..], head, count) == View(buf[..], old(head), old(count))[drop..]
    {
      hide Wrapped;
      ModOnce(head + drop, buf.Length);
      head := Wrapped(head + drop, buf.Length);
      count := count - drop;
      overflowCount := overflowCount + drop;
    }

    static lemma LastSize(s: seq<int>, n: nat)
      ensures LastOf(s, n) == if |s| <= n then s else s[|s| - n..]
      ensures |LastOf(s, n)| == Min(|s|, n)
    {
    }

    static lemma LastOfParts(held: seq<int>, samples: seq<int>, capacity: nat)
      requires |held| <= capacity
      ensures var kept := LastOf(samples, capacity);
              LastOf(held + samples, capacity)
              == (if |held| + |kept| > capacity then held[|held| + |kept| - capacity..] else held) + kept
    {
    }

    method Write(samples: seq<int>) returns (n: nat)
      requires Valid()
      modifies this, buf
      ensures Valid() && Abs() == WriteTo(old(Abs()), buf.Length, samples)
      ensures n == Min(|samples|, buf.Length)
    {
      hide View;
      hide Slot;
      hide Wrapped;
      hide LastOf;
      hide Marked;
      if buf.Length == 0 {
        return 0;
      }
      var capacity, kept := buf.Length, samples;
      LastSize(samples, capacity);
      if |kept| > capacity {
        overflowCount := overflowCount + (|kept| - capacity);
        kept := kept[|kept| - capacity..];
      }
      n := |kept|;
      var freeSlots := capacity - count;
      ghost var was := View(buf[..], head, count);
      ViewSize(buf[..], head, count);
      if n > freeSlots {
        DropOldest(n - freeSlots);
      }
      Append(kept);
      totalWritten := totalWritten + n;
      UpdateWatermarks();
      LastOfParts(was, samples, capacity);
      LastSize(was + samples, capacity);
    }

    method Read(out: array<int>, want: nat) returns (n: nat)
      requires Valid() && out != buf && want <= out.Length
      modifies this, out
      ensures Valid() && n == Min(want, |old(Abs()).contents|)
      ensures (Abs(), out[..n]) == ReadFrom(old(Abs()), want) && out[n..] == old(out[n..])
    {
      n := want;
      if n > count {
        n := count;
      }
      hide View;
      hide Slot;
      hide Wrapped;
      hide Marked;
      ghost var h0, was := head, View(buf[..], head, count);
      SlotStart(head, buf.Length);
      for i := 0 to n
        invariant count == old(count) && highWater == old(highWater) && lowWater == old(lowWater)
        invariant overflowCount == old(overflowCount) && totalWritten == old(totalWritten)
                  && totalRead == old(totalRead)
        invariant buf.Length > 0 ==> head < buf.Length && h0 < buf.Length && head == Slot(h0, i, buf.Length)
        invariant out[..i] == was[..i] && out[n..] == old(out[n..])
      {
        ViewAt(buf[..], h0, count, i);
        out[i] := buf[head];
        SlotWraps(h0, i, buf.Length);
        head := Wrapped(head + 1, buf.Length);
      }
      count := count - n;
      totalRead := totalRead + n;
      UpdateWatermarks();
      ViewDrop(buf[..], h0, old(count), n, head);
    }

    static lemma ViewSize(b: seq<int>, head: nat, count: nat)
      requires count <= |b| && (|b| > 0 ==> head < |b|)
      ensures |View(b, head, count)| == count
    {
    }

    static lemma ViewAt(b: seq<int>, head: nat, count: nat, i: nat)
      requires i < count <= |b| && head < |b|
      ensures View(b, head, count)[i] == b[Slot(head, i, |b|)]
      ensures |View(b, head, count)| == count
    {
    }

    static lemma ViewDrop(b: seq<int>, head: nat, count: nat, n: nat, head': nat)
      requires n <= count <= |b| && (|b| > 0 ==> head < |b| && head' < |b| && head' == Slot(head, n, |b|))
      ensures |View(b, head, count)| == count && View(b, head', count - n) == View(b, head, count)[n..]
    {
    }
  }
}

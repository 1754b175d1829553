/** From the encoder's queue to the server's playout: the queue, the send task, a network that
    loses, repeats and reorders datagrams, and the jitter buffer, composed. */
module EndToEnd {
  import opened Bytes
  import opened Seqs
  import opened SerialNumber
  import opened Playout
  import opened JitterSpec
  import opened JitterRefinement
  import opened JitterRuns
  import opened JitterCounters
  import opened RtpPacket
  import EQ = EncodedQueue
  import opened RtpSender

  /** Every arrival is a datagram that was sent and that the server's parser accepted; its index
      is its place in the sender's numbering. Loss, repetition and any order are allowed. */
  ghost predicate FromNetwork(s: Sender, rtp0: Rtp, es: seq<Event>) {
    forall i :: 0 <= i < |es| && es[i].Arrive? ==>
      var n := es[i].a.k - rtp0.sequence;
      0 <= n < |s.log| && s.log[n].Ok() && ParseFor(s.log[n].bytes, rtp0.payloadType) == Parsed(es[i].a.p)
  }

  /** The only assumptions about time: arrivals stay within the 16-bit window, and the buffered
      deadlines are in order whenever Emit is called. */
  ghost predicate Timely(target: int, w: Session, es: seq<Event>)
    decreases es
  {
    es == [] ||
    ((w.started ==> TimelyAt(w.u, es[0])) && Timely(target, Intend(target, w, es[0]), es[1..]))
  }

  ghost predicate TimelyAt(u: State<Packet>, e: Event) {
    match e
    case Arrive(a) => InWindow(u, a.k)
    case Tick(now, _) => InOrderAt(u, now)
  }

  /** What an accepted datagram contains. */
  lemma ArrivalIsSent(s: Sender, rtp0: Rtp, n: nat, p: Packet)
    requires Faithful(s, rtp0) && n < |s.log| && ParseFor(s.log[n].bytes, rtp0.payloadType) == Parsed(p)
    ensures p == Packet(RTP_VERSION, rtp0.payloadType, Wrap(rtp0.sequence + n),
                        Nth(rtp0, n).timestamp, rtp0.ssrc, s.popped[n])
  {
    WireRoundTrip(Nth(rtp0, n), n == 0, s.popped[n]);
  }

  lemma {:induction false} TimelyIsOrderly(s: Sender, rtp0: Rtp, target: int, w: Session, es: seq<Event>)
    requires Faithful(s, rtp0) && FromNetwork(s, rtp0, es) && Timely(target, w, es)
    ensures Orderly(target, w, es)
    decreases es
  {
    hide Faithful;
    hide ParseFor;
    hide Intend;
    hide InWindow;
    hide InOrderAt;
    hide Wrap;
    if es != [] {
      if es[0].Arrive? {
        ArrivalIsSent(s, rtp0, es[0].a.k - rtp0.sequence, es[0].a.p);
      }
      FromNetworkTail(s, rtp0, es);
      hide FromNetwork;
      TimelyIsOrderly(s, rtp0, target, Intend(target, w, es[0]), es[1..]);
    }
  }

  lemma NetworkIsNumbered(s: Sender, rtp0: Rtp, es: seq<Event>)
    requires Faithful(s, rtp0) && FromNetwork(s, rtp0, es)
    ensures Numbered(es)
  {
    hide Faithful;
    hide ParseFor;
    hide Wrap;
    forall i | 0 <= i < |es| && es[i].Arrive? ensures es[i].a.p.seqNum == Wrap(es[i].a.k) {
      ArrivalIsSent(s, rtp0, es[i].a.k - rtp0.sequence, es[i].a.p);
    }
  }

  lemma {:induction false} OrderlyIsTimely(target: int, w: Session, es: seq<Event>)
    requires Orderly(target, w, es)
    ensures Timely(target, w, es)
    decreases es
  {
    hide Intend;
    hide InWindow;
    hide InOrderAt;
    if es != [] {
      OrderlyIsTimely(target, Intend(target, w, es[0]), es[1..]);
    }
  }

  /** The assumption can be made at the arrivals instead: inside the window, every Push leaves the
      deadline condition true, and Emit times never go back. */
  lemma OrderedPushesAreTimely(s: Sender, rtp0: Rtp, target: int, clock: int, es: seq<Event>)
    requires Faithful(s, rtp0) && FromNetwork(s, rtp0, es) && PushesOrdered(target, IDLE, clock, es)
    ensures Timely(target, IDLE, es)
  {
    NetworkIsNumbered(s, rtp0, es);
    hide Faithful;
    hide FromNetwork;
    hide Numbered;
    hide Orderly;
    hide Timely;
    hide PushesOrdered;
    PushesOrderedIsOrderly(target, IDLE, clock, es);
    OrderlyIsTimely(target, IDLE, es);
  }

  lemma FromNetworkTail(s: Sender, rtp0: Rtp, es: seq<Event>)
    requires FromNetwork(s, rtp0, es) && es != []
    ensures FromNetwork(s, rtp0, es[1..])
  {
    hide ParseFor;
    assert forall i :: 0 <= i < |es[1..]| ==> es[1..][i] == es[i + 1];
  }

  lemma ArrivedWasSent(s: Sender, rtp0: Rtp, es: seq<Event>, a: Arrival)
    requires Faithful(s, rtp0) && FromNetwork(s, rtp0, es) && a in ArrivalsOf(es)
    ensures var n := a.k - rtp0.sequence;
            && 0 <= n < |s.log| && s.log[n].Ok() && a.p.payload == s.popped[n]
            && a.p.timestamp == Nth(rtp0, n).timestamp && a.p.ssrc == rtp0.ssrc
  {
    hide ParseFor;
    hide Faithful;
    hide Nth;
    hide Wrap;
    var i :| 0 <= i < |es| && es[i].Arrive? && es[i].a == a;
    ArrivalIsSent(s, rtp0, a.k - rtp0.sequence, a.p);
  }

  /** p is the n-th packet the sender numbered, sent successfully and unaltered. */
  ghost predicate IsSent(s: Sender, rtp0: Rtp, n: int, p: Packet) {
    && 0 <= n < |s.log| && n < |s.popped| && s.log[n].Ok() && p.payload == s.popped[n]
    && p.timestamp == Nth(rtp0, n).timestamp && p.ssrc == rtp0.ssrc
  }

  lemma RipeWasSent(s: Sender, rtp0: Rtp, target: int, es: seq<Event>, k: int, p: Packet, t: int)
    requires Faithful(s, rtp0) && FromNetwork(s, rtp0, es) && RipeBy(target, ArrivalsOf(es), k, p, t)
    ensures IsSent(s, rtp0, k - rtp0.sequence, p)
  {
    hide FromNetwork;
    hide ArrivalsOf;
    hide Nth;
    var recv :| Arrival(k, p, recv) in ArrivalsOf(es);
    ArrivedWasSent(s, rtp0, es, Arrival(k, p, recv));
  }

  lemma PositionWasSent(s: Sender, rtp0: Rtp, es: seq<Event>, w: Session)
    requires Faithful(s, rtp0) && FromNetwork(s, rtp0, es) && HasArrived(ArrivalsOf(es), w.first)
    requires forall i :: 0 <= i < |w.played| ==> w.first <= w.played[i] < rtp0.sequence + |s.log|
    ensures rtp0.sequence <= w.first <= Position(w) <= rtp0.sequence + |s.log|
  {
    hide FromNetwork;
    hide Faithful;
    hide ArrivalsOf;
    var p, recv :| Arrival(w.first, p, recv) in ArrivalsOf(es);
    ArrivedWasSent(s, rtp0, es, Arrival(w.first, p, recv));
  }

  /** Whatever the network loses, repeats or reorders: each packet the server plays is the
      payload popped with that number, unaltered, played at most once, in the sender's order and
      at an Emit no sooner than the playout delay after a receipt of it; expected stands right
      behind the last one played; and Lost is exactly the number of packets the sender numbered
      between the first arrival and there that were not played, which includes every failed send. */
  lemma PlaysWhatWasPopped(s: Sender, rtp0: Rtp, target: int, es: seq<Event>)
    requires Faithful(s, rtp0) && LegalRun(target, START, es) && FromNetwork(s, rtp0, es) && Timely(target, IDLE, es)
    ensures var r, w := Run(target, START, es), Intended(target, IDLE, es);
            && |r.output| == |w.played| == |w.times| && Increasing(w.played)
            && (forall i :: 0 <= i < |r.output| ==>
                  && IsSent(s, rtp0, w.played[i] - rtp0.sequence, r.output[i])
                  && RipeBy(target, ArrivalsOf(es), w.played[i], r.output[i], w.times[i]))
            && r.s.haveSeq == w.started
            && (w.started ==>
                  && r.s.expected == Wrap(w.u.exp) && w.u.exp == Position(w)
                  && (forall k :: k in w.played ==> w.first <= k < w.u.exp)
                  && rtp0.sequence <= w.first <= w.u.exp <= rtp0.sequence + |s.log|
                  && r.s.stats.lost == |Range(w.first, w.u.exp) - set k | k in w.played|)
  {
    hide Faithful;
    hide FromNetwork;
    hide Orderly;
    hide Timely;
    hide Run;
    hide LegalRun;
    hide Intended;
    hide NoneStranded;
    hide RipeBy;
    hide Wrap;
    TimelyIsOrderly(s, rtp0, target, IDLE, es);
    OrderlyRunPlaysInOrder(target, es);
    var r, w := Run(target, START, es), Intended(target, IDLE, es);
    forall i | 0 <= i < |r.output| ensures IsSent(s, rtp0, w.played[i] - rtp0.sequence, r.output[i]) {
      RipeWasSent(s, rtp0, target, es, w.played[i], r.output[i], w.times[i]);
    }
    if w.started {
      assert forall i :: 0 <= i < |w.played| ==> w.played[i] in w.played;
      PositionWasSent(s, rtp0, es, w);
    }
  }

  // ---- Back to the encoder -------------------------------------------------------------------

  /** The queue's view of the send task's operations. */
  function QueueOps(ops: seq<SendOp>): seq<EQ.Op> {
    if ops == [] then []
    else
      (match ops[0]
       case Encode(data) => [EQ.Push(data)]
       case Turn(locked, _) => if locked then [EQ.Pop(RTP_MAX_PAYLOAD)] else [])
      + QueueOps(ops[1..])
  }

  lemma {:induction false} PoppedAreReturned(s: Sender, slots: nat, slotSize: nat, ops: seq<SendOp>)
    ensures SendRun(s, slots, slotSize, ops).popped == s.popped + EQ.Returned(s.q, slots, slotSize, QueueOps(ops))
    decreases ops
  {
    if ops == [] {
      assert s.popped + [] == s.popped;
    } else {
      var s1 := SendStep(s, slots, slotSize, ops[0]);
      PoppedAreReturned(s1, slots, slotSize, ops[1..]);
      var rest := EQ.Returned(s1.q, slots, slotSize, QueueOps(ops[1..]));
      match ops[0]
      case Encode(data) =>
        assert QueueOps(ops)[1..] == QueueOps(ops[1..]);
        assert [] + rest == rest;
      case Turn(locked, sent) =>
        if locked {
          assert QueueOps(ops)[1..] == QueueOps(ops[1..]);
          ConcatAssoc(s.popped, EQ.Out(s.q, EQ.Pop(RTP_MAX_PAYLOAD)), rest);
          assert s1.popped == s.popped + EQ.Out(s.q, EQ.Pop(RTP_MAX_PAYLOAD));
        } else {
          assert [] + QueueOps(ops[1..]) == QueueOps(ops[1..]);
        }
    }
  }

  /** Picking increasing positions gives a subsequence. */
  lemma {:induction false} SelectionIsSubsequence<T>(out: seq<T>, all: seq<T>, base: int, at: seq<int>)
    requires Increasing(at) && |out| == |at|
    requires forall i :: 0 <= i < |at| ==> 0 <= at[i] - base < |all| && out[i] == all[at[i] - base]
    ensures Subsequence(out, all)
    decreases all
  {
    if out != [] {
      if at[0] == base {
        SelectionIsSubsequence(out[1..], all[1..], base + 1, at[1..]);
      } else {
        SelectionIsSubsequence(out, all[1..], base + 1, at);
      }
    }
  }

  lemma {:induction false} SubsequenceTransitive<T>(a: seq<T>, b: seq<T>, c: seq<T>)
    requires Subsequence(a, b) && Subsequence(b, c)
    ensures Subsequence(a, c)
    decreases |b| + |c|
  {
    if a != [] {
      if b[0] == c[0] && Subsequence(b[1..], c[1..]) {
        if a[0] == b[0] && Subsequence(a[1..], b[1..]) {
          SubsequenceTransitive(a[1..], b[1..], c[1..]);
        } else {
          SubsequenceTransitive(a, b[1..], c[1..]);
        }
      } else {
        SubsequenceTransitive(a, b, c[1..]);
      }
    }
  }

  lemma {:induction false} PrefixIsSubsequence<T>(a: seq<T>, b: seq<T>)
    ensures Subsequence(a, a + b)
    decreases a
  {
    if a != [] {
      assert (a + b)[1..] == a[1..] + b;
      PrefixIsSubsequence(a[1..], b);
    }
  }

  ghost function Payloads(ps: seq<Packet>): seq<seq<byte>> {
    seq(|ps|, i requires 0 <= i < |ps| => ps[i].payload)
  }

  /** End to end, on either board: over every interleaving of encoder pushes and send turns with
      sends failing at will, and every run of the server's jitter buffer fed from that network
      in a timely way, the payloads the server plays are a subsequence of the packets the
      encoder queued. */
  lemma ServerPlaysSubsequenceOfEncoded(
    rtp0: Rtp, hasPsram: bool, slots: nat, ops: seq<SendOp>, target: int, es: seq<Event>)
    requires var s := SendRun(Started(rtp0), slots, SlotSizeOf(hasPsram), ops);
             LegalRun(target, START, es) && FromNetwork(s, rtp0, es) && Timely(target, IDLE, es)
    ensures Subsequence(Payloads(Run(target, START, es).output),
                        EQ.Accepted(slots, SlotSizeOf(hasPsram), QueueOps(ops)))
  {
    hide JitterRuns.Run;
    hide LegalRun;
    hide Intended;
    hide Timely;
    hide FromNetwork;
    hide Faithful;
    hide SendRun;
    hide EQ.Run;
    hide EQ.Returned;
    hide EQ.Accepted;
    hide Subsequence;
    hide QueueOps;
    hide Range;
    var slotSize := SlotSizeOf(hasPsram);
    var s := SendRun(Started(rtp0), slots, slotSize, ops);
    PipelineNeverFails(rtp0, hasPsram, slots, ops);
    PlaysWhatWasPopped(s, rtp0, target, es);
    SelectionIsSubsequence(Payloads(Run(target, START, es).output), s.popped, rtp0.sequence,
                           Intended(target, IDLE, es).played);
    PoppedAreReturned(Started(rtp0), slots, slotSize, ops);
    var returned := EQ.Returned(EQ.EMPTY, slots, slotSize, QueueOps(ops));
    assert [] + returned == returned;
    EQ.RunIsFifo(EQ.EMPTY, slots, slotSize, QueueOps(ops));
    var held, accepted :=
        EQ.Run(EQ.EMPTY, slots, slotSize, QueueOps(ops)).packets,
        EQ.Accepted(slots, slotSize, QueueOps(ops));
    assert [] + accepted == accepted;
    PrefixIsSubsequence(returned, held);
    SubsequenceTransitive(returned, returned + held, accepted);
    SubsequenceTransitive(Payloads(Run(target, START, es).output), returned, accepted);
  }

  /** End to end with the condition at the arrivals. */
  lemma ServerPlaysSubsequenceWhenPushesOrdered(
    rtp0: Rtp, hasPsram: bool, slots: nat, ops: seq<SendOp>,
    target: int, clock: int, es: seq<Event>)
    requires var s := SendRun(Started(rtp0), slots, SlotSizeOf(hasPsram), ops);
             LegalRun(target, START, es) && FromNetwork(s, rtp0, es) && PushesOrdered(target, IDLE, clock, es)
    ensures Subsequence(Payloads(Run(target, START, es).output),
                        EQ.Accepted(slots, SlotSizeOf(hasPsram), QueueOps(ops)))
  {
    hide JitterRuns.Run;
    hide LegalRun;
    hide Timely;
    hide FromNetwork;
    hide PushesOrdered;
    hide Faithful;
    hide SendRun;
    hide EQ.Accepted;
    hide Subsequence;
    hide QueueOps;
    PipelineNeverFails(rtp0, hasPsram, slots, ops);
    OrderedPushesAreTimely(SendRun(Started(rtp0), slots, SlotSizeOf(hasPsram), ops), rtp0, target, clock, es);
    ServerPlaysSubsequenceOfEncoded(rtp0, hasPsram, slots, ops, target, es);
  }

  // ---- Nothing lost ------------------------------------------------------------------------------

  /** Every packet numbered so far arrives at least once. */
  ghost predicate AllArrive(s: Sender, rtp0: Rtp, es: seq<Event>) {
    forall k :: rtp0.sequence <= k < rtp0.sequence + |s.log| ==> k in IndicesOf(es)
  }

  lemma HasFirst(ks: seq<int>)
    ensures ks != [] ==> ks[0] in ks
  {
  }

  lemma {:induction false} IncreasingFills(ks: seq<int>, a: int, b: int)
    requires Increasing(ks) && a <= b && forall k :: k in ks <==> a <= k < b
    ensures |ks| == b - a && forall i :: 0 <= i < |ks| ==> ks[i] == a + i
    decreases b - a
  {
    if a == b {
      HasFirst(ks);
    } else {
      var n := |ks| - 1;
      assert b - 1 in ks;
      var i :| 0 <= i < |ks| && ks[i] == b - 1;
      assert ks[n] in ks && ks[n] == b - 1;
      assert forall k :: k in ks[..n] ==> k in ks;
      forall k | a <= k < b - 1 ensures k in ks[..n] {
        assert k in ks;
        var j :| 0 <= j < |ks| && ks[j] == k;
        assert ks[..n][j] == k;
      }
      forall k | k in ks[..n] ensures a <= k < b - 1 {
        var j :| 0 <= j < n && ks[j] == k;
      }
      IncreasingFills(ks[..n], a, b - 1);
    }
  }

  lemma PlayedIsAll(s: Sender, rtp0: Rtp, target: int, es: seq<Event>)
    requires Faithful(s, rtp0) && LegalRun(target, START, es) && FromNetwork(s, rtp0, es) && Timely(target, IDLE, es)
    requires AllArrive(s, rtp0, es)
    requires Run(target, START, es).s.stats.late == 0 && Run(target, START, es).s.buf == map[]
    ensures var w := Intended(target, IDLE, es);
            Increasing(w.played) && forall k :: k in w.played <==> rtp0.sequence <= k < rtp0.sequence + |s.log|
  {
    hide Faithful;
    hide Timely;
    hide Orderly;
    hide Run;
    hide LegalRun;
    hide Intended;
    hide ParseFor;
    TimelyIsOrderly(s, rtp0, target, IDLE, es);
    NoneLateMeansAllPlayed(target, es);
    OrderlyRunPlaysInOrder(target, es);
    var w := Intended(target, IDLE, es);
    forall k ensures k in w.played <==> rtp0.sequence <= k < rtp0.sequence + |s.log| {
      assert k in w.played <==> k in IndicesOf(es);
      if k in w.played {
        var i :| 0 <= i < |w.played| && w.played[i] == k;
        PlaysWhatWasPopped(s, rtp0, target, es);
        assert IsSent(s, rtp0, w.played[i] - rtp0.sequence, Run(target, START, es).output[i]);
      }
    }
  }

  /** End to end without loss: when the send task has emptied a queue that dropped nothing, every datagram
      arrives, however often and in whatever order, none is counted late, and everything buffered has been
      played, then the server has played exactly the payloads that the encoder queued, in order. */
  lemma NothingLostPlaysEverything(
    rtp0: Rtp, hasPsram: bool, slots: nat, ops: seq<SendOp>, target: int, es: seq<Event>)
    requires var s := SendRun(Started(rtp0), slots, SlotSizeOf(hasPsram), ops);
             && LegalRun(target, START, es) && FromNetwork(s, rtp0, es) && Timely(target, IDLE, es)
             && s.q.packets == [] && s.q.dropped == 0 && AllArrive(s, rtp0, es)
    requires Run(target, START, es).s.stats.late == 0 && Run(target, START, es).s.buf == map[]
    ensures Payloads(Run(target, START, es).output) == EQ.Accepted(slots, SlotSizeOf(hasPsram), QueueOps(ops))
  {
    hide JitterRuns.Run;
    hide LegalRun;
    hide Intended;
    hide Timely;
    hide FromNetwork;
    hide Faithful;
    hide SendRun;
    hide EQ.Returned;
    hide EQ.Accepted;
    hide QueueOps;
    hide AllArrive;
    var slotSize := SlotSizeOf(hasPsram);
    var s := SendRun(Started(rtp0), slots, slotSize, ops);
    PipelineNeverFails(rtp0, hasPsram, slots, ops);
    PlayedIsAll(s, rtp0, target, es);
    PlaysWhatWasPopped(s, rtp0, target, es);
    var r, w := Run(target, START, es), Intended(target, IDLE, es);
    IncreasingFills(w.played, rtp0.sequence, rtp0.sequence + |s.log|);
    LogIsPopped(s, rtp0);
    forall i | 0 <= i < |r.output| ensures r.output[i].payload == s.popped[i] {
      assert IsSent(s, rtp0, w.played[i] - rtp0.sequence, r.output[i]);
    }
    assert Payloads(r.output) == s.popped;
    PoppedIsAccepted(rtp0, slots, slotSize, ops);
  }

  lemma LogIsPopped(s: Sender, rtp0: Rtp)
    requires Faithful(s, rtp0)
    ensures |s.log| == |s.popped|
  {
  }

  /** The send task's queue is the queue of its operations. */
  lemma {:induction false} QueueFollows(s: Sender, slots: nat, slotSize: nat, ops: seq<SendOp>)
    ensures SendRun(s, slots, slotSize, ops).q == EQ.Run(s.q, slots, slotSize, QueueOps(ops))
    decreases ops
  {
    if ops != [] {
      var s1 := SendStep(s, slots, slotSize, ops[0]);
      QueueFollows(s1, slots, slotSize, ops[1..]);
      hide EQ.PushTo;
      hide Transmit;
      TransmitLeavesQueue(s, slots, slotSize, ops[0]);
      match ops[0]
      case Encode(data) => assert QueueOps(ops)[1..] == QueueOps(ops[1..]);
      case Turn(locked, sent) =>
        if locked {
          assert QueueOps(ops)[1..] == QueueOps(ops[1..]);
        } else {
          assert [] + QueueOps(ops[1..]) == QueueOps(ops[1..]);
        }
    }
  }

  lemma TransmitLeavesQueue(s: Sender, slots: nat, slotSize: nat, op: SendOp)
    ensures SendStep(s, slots, slotSize, op).q ==
              match op
              case Encode(data) => EQ.PushTo(s.q, slots, slotSize, data).0
              case Turn(locked, _) => if locked then EQ.PopFrom(s.q, RTP_MAX_PAYLOAD).0 else s.q
  {
    hide Wire;
    hide Advance;
  }

  lemma PoppedIsAccepted(rtp0: Rtp, slots: nat, slotSize: nat, ops: seq<SendOp>)
    requires var s := SendRun(Started(rtp0), slots, slotSize, ops); s.q.packets == [] && s.q.dropped == 0
    ensures SendRun(Started(rtp0), slots, slotSize, ops).popped == EQ.Accepted(slots, slotSize, QueueOps(ops))
  {
    hide SendRun;
    hide EQ.Run;
    hide EQ.Returned;
    hide EQ.Accepted;
    hide QueueOps;
    QueueFollows(Started(rtp0), slots, slotSize, ops);
    PoppedAreReturned(Started(rtp0), slots, slotSize, ops);
    EQ.RunIsFifo(EQ.EMPTY, slots, slotSize, QueueOps(ops));
    var returned, accepted := EQ.Returned(EQ.EMPTY, slots, slotSize, QueueOps(ops)),
        EQ.Accepted(slots, slotSize, QueueOps(ops));
    assert [] + returned == returned && [] + accepted == accepted && returned + [] == returned;
  }
}

/** client/components/rtp_sender/rtp_sender.c: pop, packetize, send. The outcome of each send and
    of each lock wait is arbitrary. */
module RtpSender {
  import opened Bytes
  import opened SerialNumber
  import opened RtpPacket
  import JitterSpec
  import opened Wrappers
  import opened EncodedQueue

  const RTP_MAX_PAYLOAD := 1500
  const RTP_SEND_BUF := RTP_HEADER_SIZE + RTP_MAX_PAYLOAD

  // ---- Specification ---------------------------------------------------------------------

  datatype SenderStats = SenderStats(
    packetsSent: nat, bytesSent: int, sendErrors: nat, lastSequence: U16, lastTimestamp: U32)

  /** One datagram handed to send(), and what the call returned. */
  datatype Datagram = Datagram(bytes: seq<byte>, sent: int) {
    predicate Ok() { sent >= 0 }
  }

  /** The send task with its history: the payloads popped and the datagrams offered. */
  datatype Sender = Sender(
    q: Queue, rtp: Rtp, first: bool, stats: SenderStats, popped: seq<seq<byte>>, log: seq<Datagram>)

  /** The encoder pushes; the send loop turns once, with the lock taken or not and send
      returning `sent`. */
  datatype SendOp = Encode(data: seq<byte>) | Turn(locked: bool, sent: int)

  /** One turn of the loop once a packet was popped. */
  function Transmit(s: Sender, payload: seq<byte>, sent: int): Sender {
    var s1 := s.(popped := s.popped + [payload]);
    if |payload| > RTP_MAX_PAYLOAD then
      s1.(stats := s.stats.(sendErrors := s.stats.sendErrors + 1))
    else
      var next := Advance(s.rtp);
      var s2 := s1.(rtp := next, first := false, log := s.log + [Datagram(Wire(s.rtp, s.first, payload), sent)]);
      if sent < 0 then s2.(stats := s.stats.(sendErrors := s.stats.sendErrors + 1))
      else s2.(stats := SenderStats(
          s.stats.packetsSent + 1, s.stats.bytesSent + sent, s.stats.sendErrors,
          next.sequence, next.timestamp))
  }

  function SendStep(s: Sender, slots: nat, slotSize: nat, op: SendOp): Sender {
    match op
    case Encode(data) => s.(q := PushTo(s.q, slots, slotSize, data).0)
    case Turn(locked, sent) =>
      if !locked then s
      else
        var (q, code, packet) := PopFrom(s.q, RTP_MAX_PAYLOAD);
        if packet.None? then s.(q := q) else Transmit(s.(q := q), packet.value, sent)
  }

  function SendRun(s: Sender, slots: nat, slotSize: nat, ops: seq<SendOp>): Sender
    decreases ops
  {
    if ops == [] then s else SendRun(SendStep(s, slots, slotSize, ops[0]), slots, slotSize, ops[1..])
  }

  function Started(rtp: Rtp): Sender {
    Sender(EMPTY, rtp, true, SenderStats(0, 0, 0, 0, 0), [], [])
  }

  // ---- The loop never fails by itself ------------------------------------------------------

  function Failures(log: seq<Datagram>): nat {
    if log == [] then 0 else Failures(log[..|log| - 1]) + (if log[|log| - 1].Ok() then 0 else 1)
  }

  function BytesSent(log: seq<Datagram>): int {
    if log == [] then 0 else BytesSent(log[..|log| - 1]) + (if log[|log| - 1].Ok() then log[|log| - 1].sent else 0)
  }

  /** How many datagrams there are up to the last one sent; zero when none was. */
  function UpToLastSent(log: seq<Datagram>): (n: nat)
    ensures n <= |log| && (n > 0 ==> log[n - 1].Ok()) && forall i :: n <= i < |log| ==> !log[i].Ok()
  {
    if log == [] then 0 else if log[|log| - 1].Ok() then |log| else UpToLastSent(log[..|log| - 1])
  }

  /** The statistics are those of the datagrams: how many were sent and how many failed, the bytes of those
      sent, and the numbers that follow the last one sent. */
  ghost predicate StatsOf(st: SenderStats, log: seq<Datagram>, rtp0: Rtp) {
    && st.packetsSent + st.sendErrors == |log| && st.sendErrors == Failures(log) && st.bytesSent == BytesSent(log)
    && var n := UpToLastSent(log);
       if n == 0 then st.lastSequence == 0 && st.lastTimestamp == 0
       else st.lastSequence == Nth(rtp0, n).sequence && st.lastTimestamp == Nth(rtp0, n).timestamp
  }

  /** From a packetizer that started at rtp0: the n-th packet popped is the n-th datagram,
      numbered n after the first whether or not sends failed, with the marker on the first
      only; and the statistics tell what was sent. */
  ghost predicate Faithful(s: Sender, rtp0: Rtp) {
    && |s.log| == |s.popped|
    && s.rtp == Nth(rtp0, |s.log|) && (s.first <==> s.log == [])
    && (forall n :: 0 <= n < |s.log| ==>
          && |s.popped[n]| <= RTP_MAX_PAYLOAD
          && s.log[n].bytes == Wire(Nth(rtp0, n), n == 0, s.popped[n]))
    && StatsOf(s.stats, s.log, rtp0)
  }

  lemma StatsSnoc(st: SenderStats, log: seq<Datagram>, rtp0: Rtp, d: Datagram)
    requires StatsOf(st, log, rtp0)
    ensures var next := Nth(rtp0, |log| + 1);
            StatsOf(if d.sent < 0 then st.(sendErrors := st.sendErrors + 1)
                    else SenderStats(st.packetsSent + 1, st.bytesSent + d.sent, st.sendErrors,
                                     next.sequence, next.timestamp), log + [d], rtp0)
  {
    hide Nth;
    assert (log + [d])[..|log|] == log;
  }

  lemma TransmitFaithful(s: Sender, rtp0: Rtp, payload: seq<byte>, sent: int)
    requires Faithful(s, rtp0) && |payload| <= RTP_MAX_PAYLOAD
    ensures Faithful(Transmit(s, payload, sent), rtp0)
  {
    hide Wire;
    hide StatsOf;
    hide Nth;
    hide Advance;
    AdvanceNth(rtp0, |s.log|);
    StatsSnoc(s.stats, s.log, rtp0, Datagram(Wire(s.rtp, s.first, payload), sent));
  }

  /** What is on the wire: the n-th datagram is accepted by the server as version 2 with the sender's payload
      type and source, the n-th sequence number and timestamp after the first ones, and the n-th payload
      popped; the first alone has the marker bit. */
  lemma DatagramsReadBack(s: Sender, rtp0: Rtp, n: nat)
    requires Faithful(s, rtp0) && n < |s.log|
    ensures |s.log[n].bytes| == 12 + |s.popped[n]| && (s.log[n].bytes[1] >= 128 <==> n == 0)
    ensures s.popped[n] != [] ==>
              ParseFor(s.log[n].bytes, rtp0.payloadType) ==
              Parsed(JitterSpec.Packet(2, rtp0.payloadType, (rtp0.sequence + n) % 65536,
                                       (rtp0.timestamp + n * 960) % 0x1_0000_0000, rtp0.ssrc, s.popped[n]))
  {
    WireLayout(Nth(rtp0, n), n == 0, s.popped[n]);
    WireRoundTrip(Nth(rtp0, n), n == 0, s.popped[n]);
    hide Wire;
    hide ParseFor;
  }

  /** Pops never refuse and packets never overrun when the slots are no larger than a payload,
      which both geometries of client/components/audio_manager/audio_manager.c respect. */
  lemma {:induction false} SendRunIsFaithful(s: Sender, rtp0: Rtp, slots: nat, slotSize: nat, ops: seq<SendOp>)
    requires slotSize <= RTP_MAX_PAYLOAD && Sound(s.q, slots, slotSize)
    requires Faithful(s, rtp0) && s.q.popped == |s.log|
    ensures var e := SendRun(s, slots, slotSize, ops);
            Faithful(e, rtp0) && Sound(e.q, slots, slotSize) && e.q.popped == |e.log|
    decreases ops
  {
    if ops != [] {
      SendStepIsFaithful(s, rtp0, slots, slotSize, ops[0]);
      SendRunIsFaithful(SendStep(s, slots, slotSize, ops[0]), rtp0, slots, slotSize, ops[1..]);
    }
  }

  lemma SendStepIsFaithful(s: Sender, rtp0: Rtp, slots: nat, slotSize: nat, op: SendOp)
    requires slotSize <= RTP_MAX_PAYLOAD && Sound(s.q, slots, slotSize)
    requires Faithful(s, rtp0) && s.q.popped == |s.log|
    ensures var e := SendStep(s, slots, slotSize, op);
            Faithful(e, rtp0) && Sound(e.q, slots, slotSize) && e.q.popped == |e.log|
    ensures op.Turn? ==> PopFrom(s.q, RTP_MAX_PAYLOAD).1 != -1
  {
    hide Faithful;
    hide Transmit;
    hide Sound;
    match op
    case Encode(data) =>
      PushIsSound(s.q, slots, slotSize, data);
      PushPopsNothing(s.q, slots, slotSize, data);
      FaithfulIgnoresQueue(s, rtp0, PushTo(s.q, slots, slotSize, data).0);
    case Turn(locked, sent) =>
      var (q, code, packet) := PopFrom(s.q, RTP_MAX_PAYLOAD);
      PopFits(s.q, slots, slotSize);
      FaithfulIgnoresQueue(s, rtp0, q);
      if locked && packet.Some? {
        TransmitFaithful(s.(q := q), rtp0, packet.value, sent);
        TransmitLogs(s.(q := q), packet.value, sent);
      }
  }

  lemma FaithfulIgnoresQueue(s: Sender, rtp0: Rtp, q: Queue)
    requires Faithful(s, rtp0)
    ensures Faithful(s.(q := q), rtp0)
  {
  }

  lemma PushPopsNothing(q: Queue, slots: nat, slotSize: nat, data: seq<byte>)
    ensures PushTo(q, slots, slotSize, data).0.popped == q.popped
  {
  }

  lemma PopFits(q: Queue, slots: nat, slotSize: nat)
    requires slotSize <= RTP_MAX_PAYLOAD && Sound(q, slots, slotSize)
    ensures var (q1, code, packet) := PopFrom(q, RTP_MAX_PAYLOAD);
            && code != -1 && Sound(q1, slots, slotSize)
            && q1.popped == q.popped + (if packet.Some? then 1 else 0)
            && (packet.Some? ==> |packet.value| <= RTP_MAX_PAYLOAD)
  {
  }

  lemma TransmitLogs(s: Sender, payload: seq<byte>, sent: int)
    requires |payload| <= RTP_MAX_PAYLOAD
    ensures var t := Transmit(s, payload, sent);
            t.q == s.q && |t.log| == |s.log| + 1 && t.popped == s.popped + [payload]
  {
    hide Wire;
    hide Advance;
  }

  /** client/components/audio_manager/audio_manager.c: the queue geometry. */
  function SlotSizeOf(hasPsram: bool): nat {
    if hasPsram then 1500 else 512
  }

  /** With PSRAM a slot takes the largest payload; without, 512 bytes. */
  lemma SlotsTakePayloads()
    ensures SlotSizeOf(true) == RTP_MAX_PAYLOAD == 1500 && SlotSizeOf(false) == 512
  {
  }

  /** The next pop is not refused, and the packet it returns fits the send buffer. */
  ghost predicate NextTurnSucceeds(s: Sender) {
    var (q, code, packet) := PopFrom(s.q, RTP_MAX_PAYLOAD);
    code != -1 && (packet.Some? ==> RTP_HEADER_SIZE + |packet.value| <= RTP_SEND_BUF)
  }

  /** On either board, from every state the task can reach, neither eq_pop nor rtp_serialize can fail. */
  lemma PipelineNeverFails(rtp0: Rtp, hasPsram: bool, slots: nat, ops: seq<SendOp>)
    ensures var e := SendRun(Started(rtp0), slots, SlotSizeOf(hasPsram), ops);
            && Faithful(e, rtp0) && Sound(e.q, slots, SlotSizeOf(hasPsram)) && e.q.popped == |e.log|
            && NextTurnSucceeds(e)
  {
    AdvanceNth(rtp0, 0);
    SendRunIsFaithful(Started(rtp0), rtp0, slots, SlotSizeOf(hasPsram), ops);
  }

  // ---- The loop empties the queue ----------------------------------------------------------

  /** Turns that get the lock, whatever the sends return. */
  ghost predicate LockedTurns(ops: seq<SendOp>) {
    forall i :: 0 <= i < |ops| ==> ops[i].Turn? && ops[i].locked
  }

  /** Every packet queued is offered to the network: n locked turns pop the n oldest packets in order and
      leave the rest, so as many turns as there are packets empty the queue. */
  lemma {:induction false} TurnsDrain(s: Sender, slots: nat, slotSize: nat, ops: seq<SendOp>)
    requires slotSize <= RTP_MAX_PAYLOAD && Sound(s.q, slots, slotSize) && LockedTurns(ops)
    ensures var e, n := SendRun(s, slots, slotSize, ops), if |ops| < |s.q.packets| then |ops| else |s.q.packets|;
            && e.popped == s.popped + s.q.packets[..n] && e.q.packets == s.q.packets[n..]
            && |e.log| == |s.log| + n
    decreases ops
  {
    hide SendStep;
    hide Sound;
    if ops != [] {
      var s1 := SendStep(s, slots, slotSize, ops[0]);
      TurnPopsHead(s, slots, slotSize, ops[0].sent);
      TurnsDrain(s1, slots, slotSize, ops[1..]);
      if s.q.packets != [] {
        assert s.q.packets == [s.q.packets[0]] + s1.q.packets;
      }
    }
  }

  lemma TurnPopsHead(s: Sender, slots: nat, slotSize: nat, sent: int)
    requires slotSize <= RTP_MAX_PAYLOAD && Sound(s.q, slots, slotSize)
    ensures var e := SendStep(s, slots, slotSize, SendOp.Turn(true, sent));
            && Sound(e.q, slots, slotSize)
            && if s.q.packets == [] then e == s
               else e.popped == s.popped + [s.q.packets[0]] && e.q.packets == s.q.packets[1..]
                    && |e.log| == |s.log| + 1
  {
    hide Transmit;
    hide Sound;
    PopFits(s.q, slots, slotSize);
    var (q, code, packet) := PopFrom(s.q, RTP_MAX_PAYLOAD);
    if packet.Some? {
      TransmitLogs(s.(q := q), packet.value, sent);
    }
  }

  // ---- The task ----------------------------------------------------------------------------

  class RtpSender {
    const queue: EncodedQueue
    const rtp: Packetizer
    const opus: array<byte>
    const out: array<byte>
    var firstPacket: bool
    var stats: SenderStats
    ghost var popped: seq<seq<byte>>
    ghost var log: seq<Datagram>

    ghost predicate Valid()
      reads this, queue, queue.lengths
    {
      && queue.Valid() && opus.Length == RTP_MAX_PAYLOAD && out.Length == RTP_SEND_BUF
      && queue.arena != opus && queue.arena != out && opus != out
    }

    ghost function Abs(): Sender
      requires Valid()
      reads this, queue, queue.lengths, queue.arena, rtp
    {
      Sender(queue.Abs(), rtp.Abs(), firstPacket, stats, popped, log)
    }

    constructor (queue: EncodedQueue, rtp: Packetizer)
      requires queue.Valid()
      ensures Valid() && this.queue == queue && this.rtp == rtp && fresh(opus) && fresh(out)
      ensures Abs() == Started(rtp.Abs()).(q := queue.Abs())
    {
      this.queue, this.rtp := queue, rtp;
      opus, out := new byte[RTP_MAX_PAYLOAD], new byte[RTP_SEND_BUF];
      firstPacket, stats, popped, log := true, SenderStats(0, 0, 0, 0, 0), [], [];
    }

    /** The part of the loop after a successful pop of len bytes into opus. */
    method TransmitPopped(len: nat, sent: int)
      requires Valid() && len <= opus.Length
      modifies this, rtp, out
      ensures Valid() && Abs() == Transmit(old(Abs()), opus[..len], sent)
    {
      hide Wire;
      ghost var payload := opus[..len];
      var marker := firstPacket;
      popped := popped + [payload];
      var total := rtp.Serialize(opus[..len], marker, out);
      if total >= 0 {
        firstPacket := false;
        log := log + [Datagram(out[..total], sent)];
      }
      if total < 0 || sent < 0 {
        stats := stats.(sendErrors := stats.sendErrors + 1);
        return;
      }
      stats := SenderStats(stats.packetsSent + 1, stats.bytesSent + sent,
                           stats.sendErrors, rtp.sequence, rtp.timestamp);
    }

    /** One turn of the loop; send() returns `sent`. */
    method Turn(locked: bool, sent: int)
      requires Valid()
      modifies this, rtp, opus, out, queue
      ensures Valid() && Abs() == SendStep(old(Abs()), queue.slots, queue.slotSize, SendOp.Turn(locked, sent))
    {
      hide Wire;
      if !locked {
        return;
      }
      var r, len := queue.Pop(opus);
      if r != 1 {
        return;
      }
      TransmitPopped(len, sent);
    }
  }
}

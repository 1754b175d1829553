/** The jitter buffer of server/internal/rtp/jitter.go as a state machine over 16-bit
    sequence numbers. The order in which Go visits a map is a parameter of each scan. */
module JitterSpec {
  import opened Bytes
  import opened SerialNumber
  import opened Wrappers
  import opened Playout

  datatype Packet = Packet(version: int, payloadType: int, seqNum: U16, timestamp: U32, ssrc: U32, payload: seq<byte>)

  datatype Stats = Stats(received: nat, lost: nat, duplicate: nat, reordered: nat, late: nat)

  datatype Jitter = Jitter(haveSeq: bool, expected: U16, maxSeen: U16, buf: map<U16, Buffered<Packet>>, stats: Stats)

  const NEW := Jitter(false, 0, 0, map[], Stats(0, 0, 0, 0, 0))

  const MAX_LOSS_HOOK_CALLS := 1024

  // ---- Push ---------------------------------------------------------------------------

  datatype Verdict = Fresh | Duplicated | TooLate

  function Classify(s: Jitter, q: U16): Verdict {
    if !s.haveSeq then Fresh
    else if q in s.buf then Duplicated
    else if SeqBefore(q, s.expected) then TooLate
    else Fresh
  }

  function Push(s: Jitter, p: Packet, due: int): Jitter {
    var st := s.stats.(received := s.stats.received + 1);
    var q := p.seqNum;
    match Classify(s, q)
    case Duplicated => s.(stats := st.(duplicate := st.duplicate + 1))
    case TooLate => s.(stats := st.(late := st.late + 1))
    case Fresh =>
      var buf := s.buf[q := Buffered(p, due)];
      if !s.haveSeq then Jitter(true, q, q, buf, st)
      else if SeqBefore(q, s.maxSeen) then s.(buf := buf, stats := st.(reordered := st.reordered + 1))
      else s.(buf := buf, stats := st, maxSeen := q)
  }

  // ---- Emit ---------------------------------------------------------------------------

  /** An order in which a range loop may visit the map. */
  ghost predicate Enumerates(order: seq<U16>, buf: map<U16, Buffered<Packet>>) {
    forall q :: q in order <==> q in buf
  }

  /** The scan of nextPresentDue over the keys visited so far. */
  function ScanDue(buf: map<U16, Buffered<Packet>>, now: int, order: seq<U16>): Option<Buffered<Packet>>
    requires forall q :: q in order ==> q in buf
  {
    if order == [] then None
    else
      var best := ScanDue(buf, now, order[..|order| - 1]);
      var b := buf[order[|order| - 1]];
      if b.due > now then best
      else if best.None? || SeqBefore(b.p.seqNum, best.value.p.seqNum) then Some(b)
      else best
  }

  /** One turn of the Emit loop; a skip carries the order its scan used. */
  datatype Turn = Play | GiveUp(order: seq<U16>)

  ghost predicate CanTurn(s: Jitter, now: int, t: Turn) {
    match t
    case Play => s.expected in s.buf && s.buf[s.expected].due <= now
    case GiveUp(order) => s.expected !in s.buf && Enumerates(order, s.buf) && ScanDue(s.buf, now, order).Some?
  }

  ghost function Turned(s: Jitter, now: int, t: Turn): Jitter
    requires CanTurn(s, now, t)
  {
    match t
    case Play => s.(expected := SeqNext(s.expected), buf := s.buf - {s.expected})
    case GiveUp(order) =>
      var q := ScanDue(s.buf, now, order).value.p.seqNum;
      s.(expected := q, stats := s.stats.(lost := s.stats.lost + SeqDistance(s.expected, q)))
  }

  /** Emit returns when the expected packet is not due yet, or nothing buffered is due. */
  ghost predicate Stopped(s: Jitter, now: int) {
    if s.expected in s.buf then now < s.buf[s.expected].due
    else forall q :: q in s.buf ==> now < s.buf[q].due
  }

  ghost predicate LegalTurns(s: Jitter, now: int, ts: seq<Turn>)
    decreases ts
  {
    ts == [] || (CanTurn(s, now, ts[0]) && LegalTurns(Turned(s, now, ts[0]), now, ts[1..]))
  }

  ghost function End(s: Jitter, now: int, ts: seq<Turn>): Jitter
    requires LegalTurns(s, now, ts)
    decreases ts
  {
    if ts == [] then s else End(Turned(s, now, ts[0]), now, ts[1..])
  }

  ghost function Out(s: Jitter, now: int, ts: seq<Turn>): seq<Packet>
    requires LegalTurns(s, now, ts)
    decreases ts
  {
    if ts == [] then []
    else (if ts[0].Play? then [s.buf[s.expected].p] else []) + Out(Turned(s, now, ts[0]), now, ts[1..])
  }

  /** On an empty buffer the loop does nothing. */
  lemma EmptyTakesNoTurn(s: Jitter, now: int, ts: seq<Turn>)
    requires s.buf == map[] && LegalTurns(s, now, ts)
    ensures ts == []
  {
    forall order | Enumerates(order, s.buf) ensures ScanDue(s.buf, now, order) == None {
      ScanPicksBuffered(s.buf, now, order);
    }
  }

  /** The loss hook is called on the first missing sequence numbers of a gap, at most 1024. */
  function GapCalls(cur: U16, missing: nat): seq<U16> {
    seq<U16>(if missing > MAX_LOSS_HOOK_CALLS then MAX_LOSS_HOOK_CALLS else missing, i requires 0 <= i => Wrap(cur + i))
  }

  ghost function Hooks(s: Jitter, now: int, ts: seq<Turn>): seq<U16>
    requires LegalTurns(s, now, ts)
    decreases ts
  {
    if ts == [] then []
    else
      (if ts[0].Play? then []
       else GapCalls(s.expected, SeqDistance(s.expected, ScanDue(s.buf, now, ts[0].order).value.p.seqNum)))
      + Hooks(Turned(s, now, ts[0]), now, ts[1..])
  }

  /** A complete call of Emit(now). */
  ghost predicate EmitRun(s: Jitter, now: int, ts: seq<Turn>) {
    LegalTurns(s, now, ts) && Stopped(End(s, now, ts), now)
  }

  lemma {:induction false} TurnsSnoc(s: Jitter, now: int, ts: seq<Turn>, t: Turn)
    requires LegalTurns(s, now, ts) && CanTurn(End(s, now, ts), now, t)
    ensures LegalTurns(s, now, ts + [t]) && End(s, now, ts + [t]) == Turned(End(s, now, ts), now, t)
    decreases ts
  {
    if ts == [] {
      assert [] + [t] == [t];
    } else {
      assert (ts + [t])[1..] == ts[1..] + [t];
      TurnsSnoc(Turned(s, now, ts[0]), now, ts[1..], t);
    }
  }

  lemma {:induction false} OutputSnoc(s: Jitter, now: int, ts: seq<Turn>, t: Turn)
    requires LegalTurns(s, now, ts) && CanTurn(End(s, now, ts), now, t) && LegalTurns(s, now, ts + [t])
    ensures Out(s, now, ts + [t]) == Out(s, now, ts) + Out(End(s, now, ts), now, [t])
    decreases ts
  {
    hide CanTurn;
    hide Turned;
    if ts == [] {
      assert [] + [t] == [t];
    } else {
      assert (ts + [t])[1..] == ts[1..] + [t];
      OutputSnoc(Turned(s, now, ts[0]), now, ts[1..], t);
    }
  }

  lemma {:induction false} HooksSnoc(s: Jitter, now: int, ts: seq<Turn>, t: Turn)
    requires LegalTurns(s, now, ts) && CanTurn(End(s, now, ts), now, t) && LegalTurns(s, now, ts + [t])
    ensures Hooks(s, now, ts + [t]) == Hooks(s, now, ts) + Hooks(End(s, now, ts), now, [t])
    decreases ts
  {
    hide GapCalls;
    hide SeqDistance;
    hide Wrap;
    hide ScanDue;
    hide Turned;
    if ts == [] {
      assert [] + [t] == [t];
    } else {
      assert (ts + [t])[1..] == ts[1..] + [t];
      HooksSnoc(Turned(s, now, ts[0]), now, ts[1..], t);
    }
  }

  // ---- Facts that need no assumption on the arrivals -------------------------------------

  /** Every buffered packet sits under its own sequence number; nothing before the first. */
  ghost predicate Inv(s: Jitter) {
    && (forall q :: q in s.buf ==> s.buf[q].p.seqNum == q)
    && (!s.haveSeq ==> s.buf == map[])
  }

  lemma ScanPicksBuffered(buf: map<U16, Buffered<Packet>>, now: int, order: seq<U16>)
    requires forall q :: q in order ==> q in buf
    requires forall q :: q in buf ==> buf[q].p.seqNum == q
    ensures match ScanDue(buf, now, order)
            case None => forall q :: q in order ==> now < buf[q].due
            case Some(b) => b.p.seqNum in order && buf[b.p.seqNum] == b && b.due <= now
  {
    if order != [] {
      var front, last := order[..|order| - 1], order[|order| - 1];
      ScanPicksBuffered(buf, now, front);
      assert forall q :: q in order ==> q in front || q == last;
    }
  }

  /** How often p occurs in ps. */
  ghost function Count(ps: seq<Packet>, p: Packet): nat {
    multiset(ps)[p]
  }

  lemma CountConcat(xs: seq<Packet>, ys: seq<Packet>)
    ensures forall p :: Count(xs + ys, p) == Count(xs, p) + Count(ys, p)
  {
    assert multiset(xs + ys) == multiset(xs) + multiset(ys);
  }

  /** 1 when p is the packet buffered under its sequence number. */
  ghost function Held(s: Jitter, p: Packet): nat {
    if p.seqNum in s.buf && s.buf[p.seqNum].p == p then 1 else 0
  }

  /** What an emission changes, whatever the arrivals were. */
  ghost predicate Conserves(s: Jitter, now: int, out: seq<Packet>, e: Jitter) {
    && (forall p :: p in out ==> p.seqNum in s.buf && s.buf[p.seqNum].p == p && s.buf[p.seqNum].due <= now)
    && (forall p :: Count(out, p) + Held(e, p) == Held(s, p))
    && (forall q :: q in e.buf ==> q in s.buf && e.buf[q] == s.buf[q])
    && |e.buf| + |out| == |s.buf|
    && e.stats == s.stats.(lost := e.stats.lost)
    && s.stats.lost <= e.stats.lost
    && e.expected == Wrap(s.expected + |out| + e.stats.lost - s.stats.lost)
    && e.haveSeq == s.haveSeq
  }

  lemma PlayConserves(s: Jitter, now: int)
    requires Inv(s) && CanTurn(s, now, Play)
    ensures Inv(Turned(s, now, Play))
    ensures Conserves(s, now, [s.buf[s.expected].p], Turned(s, now, Play))
  {
    var e, b := Turned(s, now, Play), s.buf[s.expected];
    assert s.buf.Keys == e.buf.Keys + {s.expected};
    forall p ensures Count([b.p], p) + Held(e, p) == Held(s, p) {
      assert p.seqNum == s.expected ==> p.seqNum !in e.buf;
    }
  }

  lemma GiveUpConserves(s: Jitter, now: int, order: seq<U16>)
    requires Inv(s) && CanTurn(s, now, GiveUp(order))
    ensures Inv(Turned(s, now, GiveUp(order)))
    ensures Conserves(s, now, [], Turned(s, now, GiveUp(order)))
  {
    ScanPicksBuffered(s.buf, now, order);
    var q := ScanDue(s.buf, now, order).value.p.seqNum;
    assert Wrap(s.expected + SeqDistance(s.expected, q)) == q;
  }

  lemma TurnConserves(s: Jitter, now: int, t: Turn)
    requires Inv(s) && CanTurn(s, now, t)
    ensures Inv(Turned(s, now, t))
    ensures Conserves(s, now, if t.Play? then [s.buf[s.expected].p] else [], Turned(s, now, t))
  {
    match t
    case Play => PlayConserves(s, now);
    case GiveUp(order) => GiveUpConserves(s, now, order);
  }

  lemma ConservesComposes(s: Jitter, now: int, out1: seq<Packet>, m: Jitter, out2: seq<Packet>, e: Jitter)
    requires Conserves(s, now, out1, m) && Conserves(m, now, out2, e)
    ensures Conserves(s, now, out1 + out2, e)
  {
    hide Held;
    hide Wrap;
    CountConcat(out1, out2);
    forall p ensures Count(out1 + out2, p) + Held(e, p) == Held(s, p) {
      assert Count(out1, p) + Held(m, p) == Held(s, p);
    }
    WrapAdd(s.expected + |out1| + m.stats.lost - s.stats.lost, |out2| + e.stats.lost - m.stats.lost);
  }

  /** Whatever the arrivals were: an Emit only plays buffered packets that are due, moves each
      from the buffer to the output exactly once, and advances the expected number by what it
      played plus what it counted lost, modulo 65536. */
  lemma {:induction false} EmitConserves(s: Jitter, now: int, ts: seq<Turn>)
    requires Inv(s) && LegalTurns(s, now, ts)
    ensures Inv(End(s, now, ts)) && Conserves(s, now, Out(s, now, ts), End(s, now, ts))
    decreases ts
  {
    if ts != [] {
      var t, s1 := ts[0], Turned(s, now, ts[0]);
      TurnConserves(s, now, t);
      EmitConserves(s1, now, ts[1..]);
      ConservesComposes(s, now, if t.Play? then [s.buf[s.expected].p] else [], s1,
                        Out(s1, now, ts[1..]), End(s1, now, ts[1..]));
    }
  }

  /** The turns ts lead from s to e, with this output and these hook calls. */
  ghost predicate Trace(s: Jitter, now: int, ts: seq<Turn>, e: Jitter, out: seq<Packet>, hooks: seq<U16>) {
    && LegalTurns(s, now, ts)
    && e == End(s, now, ts) && out == Out(s, now, ts) && hooks == Hooks(s, now, ts)
  }

  lemma TraceStart(s: Jitter, now: int)
    ensures Trace(s, now, [], s, [], [])
  {
  }

  lemma TraceSnoc(s: Jitter, now: int, ts: seq<Turn>, e: Jitter, out: seq<Packet>, hooks: seq<U16>, t: Turn)
    requires Trace(s, now, ts, e, out, hooks) && CanTurn(e, now, t)
    ensures Trace(s, now, ts + [t], Turned(e, now, t), out + Out(e, now, [t]), hooks + Hooks(e, now, [t]))
  {
    TurnsSnoc(s, now, ts, t);
    OutputSnoc(s, now, ts, t);
    HooksSnoc(s, now, ts, t);
  }

  /** The measure that bounds the Emit loop: a turn plays a buffered packet, or gives up on a
      gap and makes a buffered packet the expected one. */
  lemma TurnMeasure(s: Jitter, now: int, t: Turn)
    requires Inv(s) && CanTurn(s, now, t)
    ensures var e := Turned(s, now, t);
            && Inv(e)
            && (|e.buf| < |s.buf| || (e.buf == s.buf && s.expected !in s.buf && e.expected in e.buf))
  {
    TurnConserves(s, now, t);
    if t.GiveUp? {
      ScanPicksBuffered(s.buf, now, t.order);
    }
  }
}

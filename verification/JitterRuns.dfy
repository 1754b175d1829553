/** Whole runs of the jitter buffer: arrivals and Emit calls in any order. */
module JitterRuns {
  import opened SerialNumber
  import opened Wrappers
  import opened Playout
  import opened JitterSpec
  import opened JitterRefinement

  /** A packet, the index the sender gave it (which the buffer never sees) and its receipt. */
  datatype Arrival = Arrival(k: int, p: Packet, recv: int)

  datatype Event = Arrive(a: Arrival) | Tick(now: int, ts: seq<Turn>)

  /** The buffer together with what went in, what was discarded as duplicate or late, and what
      the Emit calls returned. */
  datatype History = History(s: Jitter, received: seq<Packet>, rejected: seq<Packet>, output: seq<Packet>)

  const START := History(NEW, [], [], [])

  ghost predicate CanStep(h: History, e: Event) {
    e.Tick? ==> EmitRun(h.s, e.now, e.ts)
  }

  ghost function Step(target: int, h: History, e: Event): History
    requires CanStep(h, e)
  {
    match e
    case Arrive(Arrival(_, p, recv)) =>
      h.(s := Push(h.s, p, recv + target), received := h.received + [p],
         rejected := if Classify(h.s, p.seqNum) == Fresh then h.rejected else h.rejected + [p])
    case Tick(now, ts) =>
      h.(s := End(h.s, now, ts), output := h.output + Out(h.s, now, ts))
  }

  ghost predicate LegalRun(target: int, h: History, es: seq<Event>)
    decreases es
  {
    es == [] || (CanStep(h, es[0]) && LegalRun(target, Step(target, h, es[0]), es[1..]))
  }

  ghost function Run(target: int, h: History, es: seq<Event>): History
    requires LegalRun(target, h, es)
    decreases es
  {
    if es == [] then h else Run(target, Step(target, h, es[0]), es[1..])
  }

  // ---- Accounting, with no assumption on the arrivals ------------------------------------

  /** Every arrival is rejected, still buffered, or played, exactly once. */
  ghost predicate Conserved(h: History) {
    forall p :: Count(h.received, p) == Count(h.rejected, p) + Held(h.s, p) + Count(h.output, p)
  }

  /** The counters say how many of each, and the expected number is the first received plus
      what was played plus what was counted lost, modulo 65536. */
  ghost predicate Counted(h: History) {
    var st := h.s.stats;
    && st.received == |h.received| && st.duplicate + st.late == |h.rejected|
    && st.received == st.duplicate + st.late + |h.s.buf| + |h.output|
    && (h.s.haveSeq <==> h.received != [])
    && (h.s.haveSeq ==> h.s.expected == Wrap(h.received[0].seqNum + |h.output| + st.lost))
    && (!h.s.haveSeq ==> h.output == [] && st.lost == 0)
  }

  lemma PushConserves(target: int, h: History, a: Arrival)
    requires Inv(h.s) && Conserved(h)
    ensures Inv(Step(target, h, Arrive(a)).s) && Conserved(Step(target, h, Arrive(a)))
  {
    var p, h' := a.p, Step(target, h, Arrive(a));
    CountConcat(h.received, [p]);
    CountConcat(h.rejected, [p]);
    forall q ensures Held(h'.s, q) == Held(h.s, q) + (if Classify(h.s, p.seqNum) == Fresh then Count([p], q) else 0) {
      if Classify(h.s, p.seqNum) == Fresh {
        assert q.seqNum == p.seqNum ==> Held(h.s, q) == 0;
      }
    }
  }

  lemma PushCounted(target: int, h: History, a: Arrival)
    requires Inv(h.s) && Counted(h)
    ensures Counted(Step(target, h, Arrive(a)))
  {
    assert (h.received + [a.p])[0] == (if h.received == [] then a.p else h.received[0]);
  }

  lemma TickConserves(target: int, h: History, now: int, ts: seq<Turn>)
    requires Inv(h.s) && Conserved(h) && EmitRun(h.s, now, ts)
    ensures Inv(Step(target, h, Tick(now, ts)).s) && Conserved(Step(target, h, Tick(now, ts)))
  {
    EmitConserves(h.s, now, ts);
    var e, out := End(h.s, now, ts), Out(h.s, now, ts);
    CountConcat(h.output, out);
    assert forall p :: Count(out, p) + Held(e, p) == Held(h.s, p);
  }

  lemma TickCounted(target: int, h: History, now: int, ts: seq<Turn>)
    requires Inv(h.s) && Counted(h) && EmitRun(h.s, now, ts)
    ensures Counted(Step(target, h, Tick(now, ts)))
  {
    hide Conserves;
    hide Counted;
    hide CanTurn;
    hide Stopped;
    EmitConserves(h.s, now, ts);
    if !h.s.haveSeq {
      EmptyTakesNoTurn(h.s, now, ts);
    }
    ConservesCounted(h, now, Out(h.s, now, ts), End(h.s, now, ts));
  }

  lemma ConservesCounted(h: History, now: int, out: seq<Packet>, e: Jitter)
    requires Counted(h) && Conserves(h.s, now, out, e)
    requires !h.s.haveSeq ==> out == [] && e == h.s
    ensures Counted(h.(s := e, output := h.output + out))
  {
    if h.s.haveSeq {
      WrapAdd(h.received[0].seqNum + |h.output| + h.s.stats.lost, |out| + e.stats.lost - h.s.stats.lost);
    }
  }

  lemma {:induction false} RunAccountsFrom(target: int, h: History, es: seq<Event>)
    requires LegalRun(target, h, es) && Inv(h.s) && Conserved(h) && Counted(h)
    ensures var r := Run(target, h, es); Inv(r.s) && Conserved(r) && Counted(r)
    decreases es
  {
    if es != [] {
      match es[0] {
        case Arrive(a) =>
          PushConserves(target, h, a);
          PushCounted(target, h, a);
        case Tick(now, ts) =>
          TickConserves(target, h, now, ts);
          TickCounted(target, h, now, ts);
      }
      RunAccountsFrom(target, Step(target, h, es[0]), es[1..]);
    }
  }

  /** Over every run, whatever arrives and whenever Emit is called. */
  lemma RunAccounts(target: int, es: seq<Event>)
    requires LegalRun(target, START, es)
    ensures Conserved(Run(target, START, es)) && Counted(Run(target, START, es))
  {
    RunAccountsFrom(target, START, es);
  }

  // ---- In-order playout ---------------------------------------------------------------

  /** Playout as intended: each Tick plays the due prefix of what is buffered. `played` are the
      indices in playing order and `times` the Ticks at which they were played. */
  datatype Session = Session(started: bool, first: int, u: State<Packet>, played: seq<int>, times: seq<int>)

  const IDLE := Session(false, 0, State(0, map[], 0), [], [])

  ghost function Intend(target: int, w: Session, e: Event): Session {
    match e
    case Arrive(Arrival(k, p, recv)) =>
      var item := Buffered(p, recv + target);
      if !w.started then Session(true, k, State(k, map[k := item], 0), [], [])
      else w.(u := Arrived(w.u, k, item))
    case Tick(now, _) =>
      var (u, ks) := PlayPrefix(w.u, now);
      w.(u := u, played := w.played + ks, times := w.times + seq(|ks|, _ => now))
  }

  ghost function Intended(target: int, w: Session, es: seq<Event>): Session
    decreases es
  {
    if es == [] then w else Intended(target, Intend(target, w, es[0]), es[1..])
  }

  /** What the network and the deadlines must satisfy at one event: an arrival carries its
      index's low 16 bits and lies within the window; at a Tick the deadlines in the buffer
      are in order. */
  ghost predicate OrderlyAt(w: Session, e: Event) {
    match e
    case Arrive(Arrival(k, p, _)) => p.seqNum == Wrap(k) && (w.started ==> InWindow(w.u, k))
    case Tick(now, _) => w.started ==> InOrderAt(w.u, now)
  }

  ghost predicate Orderly(target: int, w: Session, es: seq<Event>)
    decreases es
  {
    es == [] || (OrderlyAt(w, es[0]) && Orderly(target, Intend(target, w, es[0]), es[1..]))
  }

  /** Right behind the last packet played, or still at the first arrival. */
  ghost function Position(w: Session): int {
    if w.played == [] then w.first else w.played[|w.played| - 1] + 1
  }

  /** The 16-bit buffer is where intended playout is. */
  ghost predicate InStep(s: Jitter, w: Session) {
    && s.haveSeq == w.started
    && (w.started ==> Tracks(s, w.u, w.u.exp) && NoneBehind(w.u) && w.first <= w.u.exp
                      && w.u.lost == w.u.exp - w.first - |w.played| && w.u.exp == Position(w))
    && (!w.started ==> s == NEW && w == IDLE)
    && Increasing(w.played) && (forall k :: k in w.played ==> w.first <= k < w.u.exp)
  }

  /** p arrived with index k, and its playout delay is over at time t. */
  ghost predicate RipeBy(target: int, arrivals: set<Arrival>, k: int, p: Packet, t: int) {
    exists recv :: Arrival(k, p, recv) in arrivals && recv + target <= t
  }

  ghost predicate HasArrived(arrivals: set<Arrival>, k: int) {
    exists p, recv :: Arrival(k, p, recv) in arrivals
  }

  /** p arrived with index k, and its playout delay ends at time t. */
  ghost predicate RipensAt(target: int, arrivals: set<Arrival>, k: int, p: Packet, t: int) {
    exists recv :: Arrival(k, p, recv) in arrivals && recv + target == t
  }

  /** Everything played or buffered is the packet that arrived with that index; nothing is played
      before its delay is over, and what is buffered is due when it is. */
  ghost predicate Genuine(target: int, arrivals: set<Arrival>, output: seq<Packet>, w: Session) {
    && |output| == |w.played| == |w.times|
    && (w.started ==> HasArrived(arrivals, w.first))
    && (forall i :: 0 <= i < |output| ==> RipeBy(target, arrivals, w.played[i], output[i], w.times[i]))
    && (forall k :: k in w.u.buf ==> RipensAt(target, arrivals, k, w.u.buf[k].p, w.u.buf[k].due))
  }

  ghost function ArrivalsOf(es: seq<Event>): set<Arrival> {
    set i | 0 <= i < |es| && es[i].Arrive? :: es[i].a
  }

  lemma PushInStep(target: int, s: Jitter, w: Session, a: Arrival)
    requires InStep(s, w) && OrderlyAt(w, Arrive(a))
    ensures InStep(Push(s, a.p, a.recv + target), Intend(target, w, Arrive(a)))
  {
    hide Tracks;
    hide Push;
    hide Classify;
    PushHasStarted(s, a.p, a.recv + target);
    if w.started {
      PushRefines(s, w.u, a.k, a.p, a.recv + target);
    } else {
      FirstPush(a.k, a.p, a.recv + target);
    }
  }

  lemma PushHasStarted(s: Jitter, p: Packet, due: int)
    ensures Push(s, p, due).haveSeq
  {
  }

  lemma FirstPush(k: int, p: Packet, due: int)
    requires p.seqNum == Wrap(k)
    ensures Tracks(Push(NEW, p, due), State(k, map[k := Buffered(p, due)], 0), k)
  {
    IndexOfWrap(k, k);
  }

  /** An orderly Emit is exactly one PlayPrefix. */
  lemma TickIsPlayPrefix(s: Jitter, u: State<Packet>, now: int, ts: seq<Turn>)
    requires Tracks(s, u, u.exp) && NoneBehind(u) && InOrderAt(u, now) && EmitRun(s, now, ts)
    ensures var (t, ks) := PlayPrefix(u, now);
            && Advances(u, now, t, ks) && Tracks(End(s, now, ts), t, t.exp)
            && Out(s, now, ts) == PacketsAt(u, ks)
  {
    var moves := EmitStrandsNothingIff(s, u, now, ts);
    EmissionIsPlayPrefix(u, now, moves);
    EmissionAdvances(u, now, moves);
  }

  lemma IdleTick(target: int, s: Jitter, w: Session, now: int, ts: seq<Turn>)
    requires s == NEW && w == IDLE && LegalTurns(s, now, ts)
    ensures End(s, now, ts) == s && Out(s, now, ts) == [] && Intend(target, w, Tick(now, ts)) == w
  {
    EmptyTakesNoTurn(s, now, ts);
    assert DuePrefix(w.u, now) == {} && w.u.buf - {} == w.u.buf;
  }

  lemma TickInStep(target: int, s: Jitter, w: Session, now: int, ts: seq<Turn>)
    requires InStep(s, w) && OrderlyAt(w, Tick(now, ts)) && EmitRun(s, now, ts)
    ensures InStep(End(s, now, ts), Intend(target, w, Tick(now, ts)))
  {
    if w.started {
      hide Tracks;
      hide PlayPrefix;
      hide Advances;
      hide InOrderAt;
      hide NoneBehind;
      TickIsPlayPrefix(s, w.u, now, ts);
      AdvanceInStep(End(s, now, ts), w, now, PlayPrefix(w.u, now).0, PlayPrefix(w.u, now).1);
      EmitConservesHave(s, now, ts);
    } else {
      IdleTick(target, s, w, now, ts);
    }
  }

  lemma {:induction false} EmitConservesHave(s: Jitter, now: int, ts: seq<Turn>)
    requires LegalTurns(s, now, ts)
    ensures End(s, now, ts).haveSeq == s.haveSeq
    decreases ts
  {
    if ts != [] {
      EmitConservesHave(Turned(s, now, ts[0]), now, ts[1..]);
    }
  }

  lemma AdvanceInStep(e: Jitter, w: Session, now: int, t: State<Packet>, ks: seq<int>)
    requires w.started && e.haveSeq && Advances(w.u, now, t, ks) && Tracks(e, t, t.exp)
    requires w.first <= w.u.exp && w.u.lost == w.u.exp - w.first - |w.played|
    requires Increasing(w.played) && forall k :: k in w.played ==> w.first <= k < w.u.exp
    requires w.u.exp == Position(w)
    ensures InStep(e, w.(u := t, played := w.played + ks, times := w.times + seq(|ks|, _ => now)))
  {
    assert forall i :: 0 <= i < |w.played| ==> w.played[i] in w.played;
    IncreasingConcat(w.played, ks, w.u.exp);
  }

  lemma RipeGrows(target: int, arrivals: set<Arrival>, more: set<Arrival>, output: seq<Packet>, w: Session)
    requires Genuine(target, arrivals, output, w) && arrivals <= more
    ensures Genuine(target, more, output, w)
  {
    forall k, p, t | RipeBy(target, arrivals, k, p, t) ensures RipeBy(target, more, k, p, t) {
      var recv :| Arrival(k, p, recv) in arrivals && recv + target <= t;
      assert Arrival(k, p, recv) in more;
    }
    forall k, p, t | RipensAt(target, arrivals, k, p, t) ensures RipensAt(target, more, k, p, t) {
      var recv :| Arrival(k, p, recv) in arrivals && recv + target == t;
      assert Arrival(k, p, recv) in more;
    }
    if w.started {
      var p, recv :| Arrival(w.first, p, recv) in arrivals;
      assert Arrival(w.first, p, recv) in more;
    }
  }

  lemma PushGenuine(target: int, arrivals: set<Arrival>, s: Jitter, output: seq<Packet>, w: Session, a: Arrival)
    requires InStep(s, w) && Genuine(target, arrivals, output, w)
    ensures Genuine(target, arrivals + {a}, output, Intend(target, w, Arrive(a)))
  {
    RipeGrows(target, arrivals, arrivals + {a}, output, w);
    assert a == Arrival(a.k, a.p, a.recv);
    assert RipensAt(target, arrivals + {a}, a.k, a.p, a.recv + target);
  }

  lemma TickGenuine(
    target: int, arrivals: set<Arrival>, s: Jitter, output: seq<Packet>, w: Session, now: int, ts: seq<Turn>)
    requires InStep(s, w) && OrderlyAt(w, Tick(now, ts)) && EmitRun(s, now, ts)
    requires Genuine(target, arrivals, output, w)
    ensures Genuine(target, arrivals, output + Out(s, now, ts), Intend(target, w, Tick(now, ts)))
  {
    if w.started {
      TickIsPlayPrefix(s, w.u, now, ts);
      AdvanceGenuine(target, arrivals, output, w, now, PlayPrefix(w.u, now).0, PlayPrefix(w.u, now).1);
    } else {
      IdleTick(target, s, w, now, ts);
      assert output + [] == output;
    }
  }

  lemma AdvanceGenuine(
    target: int, arrivals: set<Arrival>, output: seq<Packet>, w: Session, now: int, t: State<Packet>, ks: seq<int>)
    requires Genuine(target, arrivals, output, w) && Advances(w.u, now, t, ks)
    ensures Genuine(target, arrivals, output + PacketsAt(w.u, ks),
                    w.(u := t, played := w.played + ks, times := w.times + seq(|ks|, _ => now)))
  {
    var out := PacketsAt(w.u, ks);
    forall i | 0 <= i < |ks| ensures RipeBy(target, arrivals, ks[i], out[i], now) {
      assert Due(w.u, now, ks[i]);
      var recv :| Arrival(ks[i], w.u.buf[ks[i]].p, recv) in arrivals && recv + target == w.u.buf[ks[i]].due;
    }
  }

  lemma {:induction false} OrderlyRunFrom(target: int, h: History, w: Session, past: set<Arrival>, es: seq<Event>)
    requires LegalRun(target, h, es) && Orderly(target, w, es)
    requires InStep(h.s, w) && Genuine(target, past, h.output, w)
    ensures var r, v := Run(target, h, es), Intended(target, w, es);
            InStep(r.s, v) && Genuine(target, past + ArrivalsOf(es), r.output, v)
    decreases es
  {
    hide InStep;
    hide Genuine;
    hide Intend;
    hide OrderlyAt;
    hide CanStep;
    hide Step;
    hide ArrivalsOf;
    if es == [] {
      NoArrivals();
      assert past + ArrivalsOf(es) == past;
    } else {
      var now' := past + (if es[0].Arrive? then {es[0].a} else {});
      OrderlyStep(target, h, w, past, es[0]);
      OrderlyRunFrom(target, Step(target, h, es[0]), Intend(target, w, es[0]), now', es[1..]);
      ArrivalsSplit(es);
      assert now' + ArrivalsOf(es[1..]) == past + ArrivalsOf(es);
    }
  }

  lemma OrderlyStep(target: int, h: History, w: Session, past: set<Arrival>, e: Event)
    requires CanStep(h, e) && OrderlyAt(w, e) && InStep(h.s, w) && Genuine(target, past, h.output, w)
    ensures InStep(Step(target, h, e).s, Intend(target, w, e))
    ensures Genuine(target, past + (if e.Arrive? then {e.a} else {}), Step(target, h, e).output, Intend(target, w, e))
  {
    hide InStep;
    hide Genuine;
    hide Intend;
    hide OrderlyAt;
    hide End;
    hide Out;
    hide Push;
    match e {
      case Arrive(a) =>
        PushInStep(target, h.s, w, a);
        PushGenuine(target, past, h.s, h.output, w, a);
      case Tick(now, ts) =>
        TickInStep(target, h.s, w, now, ts);
        TickGenuine(target, past, h.s, h.output, w, now, ts);
        assert past + {} == past;
    }
  }

  lemma NoArrivals()
    ensures ArrivalsOf([]) == {}
  {
  }

  lemma ArrivalsSplit(es: seq<Event>)
    requires es != []
    ensures ArrivalsOf(es) == (if es[0].Arrive? then {es[0].a} else {}) + ArrivalsOf(es[1..])
  {
    forall a | a in ArrivalsOf(es) ensures a in (if es[0].Arrive? then {es[0].a} else {}) + ArrivalsOf(es[1..]) {
      var i :| 0 <= i < |es| && es[i].Arrive? && es[i].a == a;
      if i > 0 { assert es[1..][i - 1] == es[i]; }
    }
    forall a | a in ArrivalsOf(es[1..]) ensures a in ArrivalsOf(es) {
      var i :| 0 <= i < |es[1..]| && es[1..][i].Arrive? && es[1..][i].a == a;
      assert es[i + 1] == es[1..][i];
    }
  }

  /** What a run r with the intended session w has done. */
  ghost predicate PlayedInOrder(target: int, arrivals: set<Arrival>, r: History, w: Session) {
    && Increasing(w.played) && |r.output| == |w.played| == |w.times|
    && (forall i :: 0 <= i < |r.output| ==> RipeBy(target, arrivals, w.played[i], r.output[i], w.times[i]))
    && r.s.haveSeq == w.started
    && (w.started ==>
          && NoneStranded(r.s) && r.s.expected == Wrap(w.u.exp)
          && HasArrived(arrivals, w.first) && w.u.exp == Position(w)
          && (forall k :: k in w.played ==> w.first <= k < w.u.exp)
          && r.s.stats.lost == |Range(w.first, w.u.exp) - set k | k in w.played|)
  }

  /** The main ordering theorem. Over every orderly run of Push and Emit, across any number of
      16-bit wraps: the packets returned have strictly increasing indices, each is the packet
      that arrived with that index and is played no sooner than its delay allows, nothing is
      ever left behind the playing position, and Lost is exactly the number of indices passed
      since the first arrival that were never played. */
  lemma OrderlyRunPlaysInOrder(target: int, es: seq<Event>)
    requires LegalRun(target, START, es) && Orderly(target, IDLE, es)
    ensures PlayedInOrder(target, ArrivalsOf(es), Run(target, START, es), Intended(target, IDLE, es))
  {
    OrderlyRunFrom(target, START, IDLE, {}, es);
    var r, w := Run(target, START, es), Intended(target, IDLE, es);
    if w.started {
      StrandedIff(r.s, w.u, w.u.exp);
      LeftOutSize(w.played, w.first, w.u.exp);
    }
    assert {} + ArrivalsOf(es) == ArrivalsOf(es);
  }

  /** The packet with index j is in the buffer and its delay is not over. */
  ghost predicate Unripe(target: int, arrivals: set<Arrival>, e: Jitter, j: int, now: int) {
    Wrap(j) in e.buf && exists p, recv :: Arrival(j, p, recv) in arrivals && now < recv + target
  }

  /** A packet at or before place k is in the buffer before its time. */
  ghost predicate HeldBack(target: int, arrivals: set<Arrival>, e: Jitter, k: int, now: int) {
    exists j :: j <= k && Unripe(target, arrivals, e, j, now)
  }

  /** Nor is a packet played late: an orderly Emit at time now leaves one in the buffer only behind a packet
      at or before its place whose delay is not over, and leaves that one too. */
  lemma NothingWaitsPastItsDelay(target: int, es: seq<Event>, now: int, ts: seq<Turn>, k: int)
    requires LegalRun(target, START, es) && Orderly(target, IDLE, es)
    requires var w := Intended(target, IDLE, es);
             w.started && InOrderAt(w.u, now) && k in Intend(target, w, Tick(now, ts)).u.buf
    requires EmitRun(Run(target, START, es).s, now, ts)
    ensures var e := End(Run(target, START, es).s, now, ts);
            Wrap(k) in e.buf && HeldBack(target, ArrivalsOf(es), e, k, now)
  {
    hide LegalRun;
    hide Orderly;
    hide HeldBack;
    hide Run;
    hide Intended;
    hide Intend;
    hide End;
    hide InStep;
    hide Genuine;
    StartsInStep(target);
    OrderlyRunFrom(target, START, IDLE, {}, es);
    assert {} + ArrivalsOf(es) == ArrivalsOf(es);
    var r, w := Run(target, START, es), Intended(target, IDLE, es);
    TickLeavesUnripe(target, ArrivalsOf(es), r.s, r.output, w, now, ts, k);
  }

  lemma StartsInStep(target: int)
    ensures InStep(START.s, IDLE) && Genuine(target, {}, START.output, IDLE)
  {
  }

  lemma TickLeavesUnripe(
    target: int, arrivals: set<Arrival>, s: Jitter, output: seq<Packet>, w: Session, now: int, ts: seq<Turn>, k: int)
    requires InStep(s, w) && Genuine(target, arrivals, output, w) && EmitRun(s, now, ts)
    requires w.started && InOrderAt(w.u, now) && k in Intend(target, w, Tick(now, ts)).u.buf
    ensures Wrap(k) in End(s, now, ts).buf && HeldBack(target, arrivals, End(s, now, ts), k, now)
  {
    hide HeldBack;
    hide Genuine;
    hide InOrderAt;
    hide Tracks;
    hide NoneBehind;
    hide PlayPrefix;
    hide Stopped;
    hide End;
    hide Wrap;
    TickIsPlayPrefix(s, w.u, now, ts);
    LeftWaitsForOne(target, arrivals, output, End(s, now, ts), w, now, k);
  }

  lemma LeftWaitsForOne(
    target: int, arrivals: set<Arrival>, output: seq<Packet>, e: Jitter, w: Session, now: int, k: int)
    requires var t := PlayPrefix(w.u, now).0; Tracks(e, t, t.exp) && k in t.buf
    requires Genuine(target, arrivals, output, w)
    ensures Wrap(k) in e.buf && HeldBack(target, arrivals, e, k, now)
  {
    hide Tracks;
    hide PlayPrefix;
    hide RipensAt;
    hide Wrap;
    hide HeldBack;
    var u := w.u;
    var j := LeftByPrefix(u, now, k);
    TracksHolds(e, PlayPrefix(u, now).0, k);
    TracksHolds(e, PlayPrefix(u, now).0, j);
    UnripeHoldsBack(target, arrivals, e, u.buf[j].p, u.buf[j].due, j, k, now);
  }

  lemma TracksHolds(e: Jitter, t: State<Packet>, k: int)
    requires Tracks(e, t, t.exp) && k in t.buf
    ensures Wrap(k) in e.buf
  {
  }

  lemma UnripeHoldsBack(
    target: int, arrivals: set<Arrival>, e: Jitter, p: Packet, due: int, j: int, k: int, now: int)
    requires RipensAt(target, arrivals, j, p, due) && now < due && Wrap(j) in e.buf && j <= k
    ensures HeldBack(target, arrivals, e, k, now)
  {
    assert Unripe(target, arrivals, e, j, now);
  }

  lemma LeftByPrefix(u: State<Packet>, now: int, k: int) returns (j: int)
    requires k in PlayPrefix(u, now).0.buf
    ensures j <= k && j in u.buf && j in PlayPrefix(u, now).0.buf && now < u.buf[j].due
  {
    j :| j in u.buf && j <= k && !Due(u, now, j);
    assert j !in DuePrefix(u, now);
  }

  /** The deadline condition at a Tick is exact: after an orderly run, the next Emit leaves a
      packet behind if and only if the condition fails. */
  lemma TickStrandsIff(target: int, es: seq<Event>, now: int, ts: seq<Turn>)
    requires LegalRun(target, START, es) && Orderly(target, IDLE, es) && Intended(target, IDLE, es).started
    requires EmitRun(Run(target, START, es).s, now, ts)
    ensures NoneStranded(End(Run(target, START, es).s, now, ts)) <==> InOrderAt(Intended(target, IDLE, es).u, now)
  {
    OrderlyRunFrom(target, START, IDLE, {}, es);
    var moves := EmitStrandsNothingIff(Run(target, START, es).s, Intended(target, IDLE, es).u, now, ts);
  }

  // ---- The condition at each Push ------------------------------------------------------------

  /** Every arrival carries its index's low 16 bits. */
  ghost predicate Numbered(es: seq<Event>) {
    forall i :: 0 <= i < |es| && es[i].Arrive? ==> es[i].a.p.seqNum == Wrap(es[i].a.k)
  }

  /** Every arrival is in the window, every Push leaves the deadline condition true for the time of the
      last Emit, and Emit times never go back. Nothing is said about the deadlines at an Emit. */
  ghost predicate PushesOrdered(target: int, w: Session, clock: int, es: seq<Event>)
    decreases es
  {
    es == [] ||
    (PushOrderedAt(target, w, clock, es[0])
     && PushesOrdered(target, Intend(target, w, es[0]), ClockAfter(clock, es[0]), es[1..]))
  }

  ghost predicate PushOrderedAt(target: int, w: Session, clock: int, e: Event) {
    match e
    case Arrive(a) => w.started ==> InWindow(w.u, a.k) && GapHeadsOrdered(Intend(target, w, e).u, clock)
    case Tick(now, _) => clock <= now
  }

  function ClockAfter(clock: int, e: Event): int {
    if e.Tick? then e.now else clock
  }

  /** Between events: nothing behind, and no later Emit can leave anything behind. */
  ghost predicate Ahead(w: Session, clock: int) {
    w.started ==> NoneBehind(w.u) && GapHeadsOrdered(w.u, clock)
  }

  lemma PushOrderedKeepsAhead(target: int, w: Session, clock: int, e: Event)
    requires Ahead(w, clock) && PushOrderedAt(target, w, clock, e) && (!w.started ==> w == IDLE)
    ensures Ahead(Intend(target, w, e), ClockAfter(clock, e))
    ensures !Intend(target, w, e).started ==> Intend(target, w, e) == IDLE
    ensures e.Tick? && w.started ==> InOrderAt(w.u, e.now)
  {
    if e.Tick? {
      if w.started {
        PlayPrefixKeepsGapHeads(w.u, clock, e.now);
      } else {
        assert DuePrefix(w.u, e.now) == {} && w.u.buf - {} == w.u.buf;
      }
    }
  }

  /** The condition at the pushes gives the condition at every Emit. */
  lemma {:induction false} PushesOrderedIsOrderly(target: int, w: Session, clock: int, es: seq<Event>)
    requires Ahead(w, clock) && (!w.started ==> w == IDLE) && Numbered(es) && PushesOrdered(target, w, clock, es)
    ensures Orderly(target, w, es)
    decreases es
  {
    hide Ahead;
    hide Intend;
    hide InWindow;
    hide InOrderAt;
    hide GapHeadsOrdered;
    if es != [] {
      PushOrderedKeepsAhead(target, w, clock, es[0]);
      assert Numbered(es[1..]) by {
        assert forall i :: 0 <= i < |es[1..]| ==> es[1..][i] == es[i + 1];
      }
      PushesOrderedIsOrderly(target, Intend(target, w, es[0]), ClockAfter(clock, es[0]), es[1..]);
    }
  }

  /** The ordering theorem with its condition at the pushes. Over every run of Push and Emit in which
      each Push leaves the deadline condition true, arrivals stay within the window and Emit times
      never go back, playout is in order and nothing buffered is ever skipped. */
  lemma PushOrderPlaysInOrder(target: int, clock: int, es: seq<Event>)
    requires LegalRun(target, START, es) && Numbered(es) && PushesOrdered(target, IDLE, clock, es)
    ensures PlayedInOrder(target, ArrivalsOf(es), Run(target, START, es), Intended(target, IDLE, es))
  {
    PushesOrderedIsOrderly(target, IDLE, clock, es);
    OrderlyRunPlaysInOrder(target, es);
  }

  /** a is kept by the buffer that stands at w. */
  predicate Kept(w: Session, a: Arrival) {
    w.started && a.k !in w.u.buf && w.u.exp <= a.k
  }

  /** Receipt times never go back, as they do not when one task reads the socket. */
  ghost predicate ReceiptsForward(last: int, es: seq<Event>)
    decreases es
  {
    es == [] ||
    ((es[0].Arrive? ==> last <= es[0].a.recv)
     && ReceiptsForward(if es[0].Arrive? then es[0].a.recv else last, es[1..]))
  }

  /** Each kept arrival, seen alone: it is not the head of a gap with a deadline after that of a packet
      behind it in the buffer. */
  ghost predicate HeadsOk(target: int, w: Session, clock: int, es: seq<Event>)
    decreases es
  {
    es == [] ||
    (HeadOkAt(target, w, clock, es[0]) && HeadsOk(target, Intend(target, w, es[0]), ClockAfter(clock, es[0]), es[1..]))
  }

  ghost predicate HeadOkAt(target: int, w: Session, clock: int, e: Event) {
    match e
    case Arrive(a) =>
      && (w.started ==> InWindow(w.u, a.k))
      && (Kept(w, a) ==> HeadOk(Accepted(w.u, a.k, Buffered(a.p, a.recv + target)), clock, a.k))
    case Tick(now, _) => clock <= now
  }

  ghost predicate DueBy(target: int, w: Session, last: int) {
    forall k :: k in w.u.buf ==> w.u.buf[k].due <= last + target
  }

  lemma DueByKept(target: int, w: Session, last: int, e: Event)
    requires DueBy(target, w, last) && (e.Arrive? ==> last <= e.a.recv)
    ensures DueBy(target, Intend(target, w, e), if e.Arrive? then e.a.recv else last)
  {
    hide Sorted;
    hide DuePrefix;
  }

  lemma HeadOkAtIff(target: int, w: Session, clock: int, last: int, e: Event)
    requires Ahead(w, clock) && DueBy(target, w, last) && (e.Arrive? ==> last <= e.a.recv)
    ensures HeadOkAt(target, w, clock, e) <==> PushOrderedAt(target, w, clock, e)
  {
    hide HeadOk;
    hide GapHeadsOrdered;
    hide NoneBehind;
    hide InWindow;
    hide PlayPrefix;
    if e.Arrive? && Kept(w, e.a) {
      AcceptKeepsGapHeadsIff(w.u, clock, e.a.k, Buffered(e.a.p, e.a.recv + target));
    }
  }

  /** With receipt times that never go back the two conditions are one: every Push leaves the deadline
      condition true exactly when each kept arrival alone is no overtaken gap head. */
  lemma {:induction false} HeadsOkIffPushesOrdered(target: int, w: Session, clock: int, last: int, es: seq<Event>)
    requires Ahead(w, clock) && (!w.started ==> w == IDLE) && DueBy(target, w, last) && ReceiptsForward(last, es)
    ensures HeadsOk(target, w, clock, es) <==> PushesOrdered(target, w, clock, es)
    decreases es
  {
    hide Ahead;
    hide Intend;
    hide DueBy;
    hide HeadOkAt;
    hide PushOrderedAt;
    if es != [] {
      HeadOkAtIff(target, w, clock, last, es[0]);
      DueByKept(target, w, last, es[0]);
      if PushOrderedAt(target, w, clock, es[0]) {
        PushOrderedKeepsAhead(target, w, clock, es[0]);
        HeadsOkIffPushesOrdered(target, Intend(target, w, es[0]), ClockAfter(clock, es[0]),
                                if es[0].Arrive? then es[0].a.recv else last, es[1..]);
      }
    }
  }

  /** The same theorem from arrival times alone. */
  lemma HeadsOkPlaysInOrder(target: int, clock: int, last: int, es: seq<Event>)
    requires LegalRun(target, START, es) && Numbered(es)
             && ReceiptsForward(last, es) && HeadsOk(target, IDLE, clock, es)
    ensures PlayedInOrder(target, ArrivalsOf(es), Run(target, START, es), Intended(target, IDLE, es))
  {
    HeadsOkIffPushesOrdered(target, IDLE, clock, last, es);
    PushOrderPlaysInOrder(target, clock, es);
  }

  // ---- How order is lost ---------------------------------------------------------------

  /** Three arrivals at increasing times suffice. 101 is lost, 102 arrives after 103. The Emit
      at 61 gives up on 101 and 102 together and plays 103; the Emit at 70 then goes back to
      102 the long way round, so the output is out of order and Lost, which should be 1,
      reads 65536. */
  lemma OvertakenPacketExample(p: Packet)
    ensures var p100, p103, p102 := p.(seqNum := 100), p.(seqNum := 103), p.(seqNum := 102);
            var es := [Arrive(Arrival(100, p100, 0)), Arrive(Arrival(103, p103, 1)), Arrive(Arrival(102, p102, 10)),
                       Tick(61, [Play, GiveUp([102, 103]), Play]), Tick(70, [GiveUp([102]), Play])];
            && LegalRun(60, START, es)
            && Run(60, START, es).output == [p100, p103, p102]
            && Run(60, START, es).s.stats == Stats(3, 65536, 0, 1, 0)
  {
    var p100, p103, p102 := p.(seqNum := 100), p.(seqNum := 103), p.(seqNum := 102);
    var a1, a2, a3 := Arrive(Arrival(100, p100, 0)), Arrive(Arrival(103, p103, 1)), Arrive(Arrival(102, p102, 10));
    var t1, t2 := Tick(61, [Play, GiveUp([102, 103]), Play]), Tick(70, [GiveUp([102]), Play]);
    var b100, b103, b102 := Buffered(p100, 60), Buffered(p103, 61), Buffered(p102, 70);
    var h1 := History(Jitter(true, 100, 100, map[100 := b100], Stats(1, 0, 0, 0, 0)), [p100], [], []);
    var h2 := History(Jitter(true, 100, 103, map[100 := b100, 103 := b103], Stats(2, 0, 0, 0, 0)),
                      [p100, p103], [], []);
    var s3 := Jitter(true, 100, 103, map[100 := b100, 103 := b103, 102 := b102], Stats(3, 0, 0, 1, 0));
    var h3 := History(s3, [p100, p103, p102], [], []);
    ThreeArrivals(p100, p103, p102);
    FirstTick(s3, b100, b103, b102);
    var s4 := Jitter(true, 104, 103, map[102 := b102], Stats(3, 2, 0, 1, 0));
    var h4 := h3.(s := s4, output := [p100, p103]);
    SecondTick(s4, b102);
    var h5 := h4.(s := Jitter(true, 103, 103, map[], Stats(3, 65536, 0, 1, 0)), output := [p100, p103, p102]);
    hide Push;
    hide EmitRun;
    hide End;
    hide Out;
    hide LegalRun;
    hide Run;
    RunCons(60, h4, t2, [], h5);
    RunCons(60, h3, t1, [t2], h4);
    RunCons(60, h2, a3, [t1, t2], h3);
    RunCons(60, h1, a2, [a3, t1, t2], h2);
    RunCons(60, START, a1, [a2, a3, t1, t2], h1);
    EmptyRun(60, h5);
    assert [t2] + [] == [t2] && [t1] + [t2] == [t1, t2] && [a3] + [t1, t2] == [a3, t1, t2];
    assert [a2] + [a3, t1, t2] == [a2, a3, t1, t2] && [a1] + [a2, a3, t1, t2] == [a1, a2, a3, t1, t2];
  }

  lemma EmptyRun(target: int, h: History)
    ensures LegalRun(target, h, []) && Run(target, h, []) == h
  {
  }

  lemma RunCons(target: int, h: History, e: Event, es: seq<Event>, next: History)
    requires CanStep(h, e) && Step(target, h, e) == next
    ensures LegalRun(target, next, es) ==>
              LegalRun(target, h, [e] + es) && Run(target, h, [e] + es) == Run(target, next, es)
  {
    assert ([e] + es)[1..] == es;
  }

  lemma ThreeArrivals(p100: Packet, p103: Packet, p102: Packet)
    requires p100.seqNum == 100 && p103.seqNum == 103 && p102.seqNum == 102
    ensures var b100, b103, b102 := Buffered(p100, 60), Buffered(p103, 61), Buffered(p102, 70);
            var h1 := History(Jitter(true, 100, 100, map[100 := b100], Stats(1, 0, 0, 0, 0)), [p100], [], []);
            var h2 := History(Jitter(true, 100, 103, map[100 := b100, 103 := b103], Stats(2, 0, 0, 0, 0)),
                      [p100, p103], [], []);
            var s3 := Jitter(true, 100, 103, map[100 := b100, 103 := b103, 102 := b102], Stats(3, 0, 0, 1, 0));
            && Step(60, START, Arrive(Arrival(100, p100, 0))) == h1
            && Step(60, h1, Arrive(Arrival(103, p103, 1))) == h2
            && Step(60, h2, Arrive(Arrival(102, p102, 10))) == History(s3, [p100, p103, p102], [], [])
  {
  }

  lemma FirstTick(s: Jitter, b100: Buffered<Packet>, b103: Buffered<Packet>, b102: Buffered<Packet>)
    requires b100.due == 60 && b103.due == 61 && b102.due == 70
    requires b100.p.seqNum == 100 && b103.p.seqNum == 103 && b102.p.seqNum == 102
    requires s == Jitter(true, 100, 103, map[100 := b100, 103 := b103, 102 := b102], Stats(3, 0, 0, 1, 0))
    ensures var ts := [Play, GiveUp([102, 103]), Play];
            && EmitRun(s, 61, ts) && Out(s, 61, ts) == [b100.p, b103.p]
            && End(s, 61, ts) == Jitter(true, 104, 103, map[102 := b102], Stats(3, 2, 0, 1, 0))
  {
    var g := GiveUp([102, 103]);
    var s1 := s.(expected := 101, buf := map[103 := b103, 102 := b102]);
    assert s.buf - {100} == s1.buf;
    assert Turned(s, 61, Play) == s1;
    assert [102, 103][..1] == [102] && [102][..0] == [];
    assert ScanDue(s1.buf, 61, [102]) == None;
    assert ScanDue(s1.buf, 61, [102, 103]) == Some(b103);
    var s2 := s1.(expected := 103, stats := Stats(3, 2, 0, 1, 0));
    assert Turned(s1, 61, g) == s2;
    var s3 := s2.(expected := 104, buf := map[102 := b102]);
    assert s2.buf - {103} == s3.buf;
    assert Turned(s2, 61, Play) == s3;
    assert [Play, g, Play][1..] == [g, Play] && [g, Play][1..] == [Play] && [Play][1..] == [];
    assert LegalTurns(s2, 61, [Play]) && End(s2, 61, [Play]) == s3 && Out(s2, 61, [Play]) == [b103.p];
    assert LegalTurns(s1, 61, [g, Play]) && End(s1, 61, [g, Play]) == s3 && Out(s1, 61, [g, Play]) == [b103.p];
  }

  lemma SecondTick(s: Jitter, b102: Buffered<Packet>)
    requires b102.due == 70 && b102.p.seqNum == 102
    requires s == Jitter(true, 104, 103, map[102 := b102], Stats(3, 2, 0, 1, 0))
    ensures var ts := [GiveUp([102]), Play];
            && EmitRun(s, 70, ts) && Out(s, 70, ts) == [b102.p]
            && End(s, 70, ts) == Jitter(true, 103, 103, map[], Stats(3, 65536, 0, 1, 0))
  {
    var g := GiveUp([102]);
    assert [102][..0] == [];
    assert ScanDue(s.buf, 70, [102]) == Some(b102);
    var s1 := s.(expected := 102, stats := Stats(3, 65536, 0, 1, 0));
    assert Turned(s, 70, g) == s1;
    var s2 := s1.(expected := 103, buf := map[]);
    assert s1.buf - {102} == s2.buf;
    assert Turned(s1, 70, Play) == s2;
    assert [g, Play][1..] == [Play] && [Play][1..] == [];
    assert LegalTurns(s1, 70, [Play]) && End(s1, 70, [Play]) == s2 && Out(s1, 70, [Play]) == [b102.p];
  }
}

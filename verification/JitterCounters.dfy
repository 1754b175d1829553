/** The Duplicate and Late counters of server/internal/rtp/jitter.go over whole runs. */
module JitterCounters {
  import opened SerialNumber
  import opened Wrappers
  import opened Playout
  import opened JitterSpec
  import opened JitterRefinement
  import opened JitterRuns

  /** An arrival whose sequence number is buffered. */
  ghost predicate IsDuplicate(s: Jitter, e: Event) {
    e.Arrive? && e.a.p.seqNum in s.buf
  }

  /** An arrival not buffered, in the half of the sequence space behind the expected number. */
  ghost predicate IsLate(s: Jitter, e: Event) {
    e.Arrive? && s.haveSeq && e.a.p.seqNum !in s.buf && SeqDistance(s.expected, e.a.p.seqNum) >= 32768
  }

  ghost function Duplicates(target: int, h: History, es: seq<Event>): nat
    requires LegalRun(target, h, es)
    decreases es
  {
    if es == [] then 0
    else (if IsDuplicate(h.s, es[0]) then 1 else 0) + Duplicates(target, Step(target, h, es[0]), es[1..])
  }

  ghost function Lates(target: int, h: History, es: seq<Event>): nat
    requires LegalRun(target, h, es)
    decreases es
  {
    if es == [] then 0
    else (if IsLate(h.s, es[0]) then 1 else 0) + Lates(target, Step(target, h, es[0]), es[1..])
  }

  lemma PushCounts(s: Jitter, a: Arrival, due: int)
    requires Inv(s)
    ensures var e := Push(s, a.p, due);
            && e.stats.duplicate == s.stats.duplicate + (if IsDuplicate(s, Arrive(a)) then 1 else 0)
            && e.stats.late == s.stats.late + (if IsLate(s, Arrive(a)) then 1 else 0)
  {
  }

  lemma StepCounts(target: int, h: History, e: Event)
    requires Inv(h.s) && CanStep(h, e)
    ensures var t := Step(target, h, e).s;
            && Inv(t)
            && t.stats.duplicate == h.s.stats.duplicate + (if IsDuplicate(h.s, e) then 1 else 0)
            && t.stats.late == h.s.stats.late + (if IsLate(h.s, e) then 1 else 0)
  {
    match e
    case Arrive(a) => PushCounts(h.s, a, a.recv + target);
    case Tick(now, ts) => EmitConserves(h.s, now, ts);
  }

  lemma {:induction false} RunCounts(target: int, h: History, es: seq<Event>)
    requires Inv(h.s) && LegalRun(target, h, es)
    ensures var e := Run(target, h, es).s.stats;
            && e.duplicate == h.s.stats.duplicate + Duplicates(target, h, es)
            && e.late == h.s.stats.late + Lates(target, h, es)
    decreases es
  {
    hide Step;
    hide CanStep;
    hide IsDuplicate;
    hide IsLate;
    if es != [] {
      StepCounts(target, h, es[0]);
      RunCounts(target, Step(target, h, es[0]), es[1..]);
    }
  }

  /** Over every run, whatever arrives: Duplicate counts exactly the arrivals whose number was buffered,
      Late exactly those that were not buffered and behind the expected number. */
  lemma RejectionsAreCounted(target: int, es: seq<Event>)
    requires LegalRun(target, START, es)
    ensures var st := Run(target, START, es).s.stats;
            st.duplicate == Duplicates(target, START, es) && st.late == Lates(target, START, es)
  {
    RunCounts(target, START, es);
  }

  // ---- By true index -----------------------------------------------------------------------------

  /** The packet with this index has arrived and waits to be played. */
  ghost predicate IsRepeat(w: Session, e: Event) {
    e.Arrive? && w.started && e.a.k in w.u.buf
  }

  /** Its place has been passed: a later packet was played, or it precedes the first arrival. */
  ghost predicate IsBehind(w: Session, e: Event) {
    e.Arrive? && w.started && e.a.k < Position(w)
  }

  ghost function Repeats(target: int, w: Session, es: seq<Event>): nat
    decreases es
  {
    if es == [] then 0
    else (if IsRepeat(w, es[0]) then 1 else 0) + Repeats(target, Intend(target, w, es[0]), es[1..])
  }

  ghost function Behinds(target: int, w: Session, es: seq<Event>): nat
    decreases es
  {
    if es == [] then 0
    else (if IsBehind(w, es[0]) then 1 else 0) + Behinds(target, Intend(target, w, es[0]), es[1..])
  }

  lemma StepByIndex(target: int, h: History, w: Session, e: Event)
    requires CanStep(h, e) && InStep(h.s, w) && OrderlyAt(w, e)
    ensures InStep(Step(target, h, e).s, Intend(target, w, e))
    ensures IsDuplicate(h.s, e) <==> IsRepeat(w, e)
    ensures IsLate(h.s, e) <==> IsBehind(w, e)
  {
    hide InStep;
    hide Intend;
    hide Push;
    hide End;
    hide OrderlyAt;
    match e
    case Arrive(a) =>
      PushInStep(target, h.s, w, a);
      ArrivalByIndex(h.s, w, a);
    case Tick(now, ts) => TickInStep(target, h.s, w, now, ts);
  }

  lemma ArrivalByIndex(s: Jitter, w: Session, a: Arrival)
    requires InStep(s, w) && OrderlyAt(w, Arrive(a))
    ensures IsDuplicate(s, Arrive(a)) <==> IsRepeat(w, Arrive(a))
    ensures IsLate(s, Arrive(a)) <==> IsBehind(w, Arrive(a))
  {
    if w.started {
      PushRefines(s, w.u, a.k, a.p, 0);
      BehindIsFar(s.expected, a.p.seqNum);
    }
  }

  lemma BehindIsFar(expected: U16, q: U16)
    ensures SeqBefore(q, expected) <==> SeqDistance(expected, q) >= 32768
  {
  }

  lemma {:induction false} RunByIndex(target: int, h: History, w: Session, es: seq<Event>)
    requires LegalRun(target, h, es) && Orderly(target, w, es) && InStep(h.s, w)
    ensures Duplicates(target, h, es) == Repeats(target, w, es) && Lates(target, h, es) == Behinds(target, w, es)
    decreases es
  {
    hide InStep;
    hide Step;
    hide CanStep;
    hide Intend;
    hide OrderlyAt;
    hide IsDuplicate;
    hide IsLate;
    hide IsRepeat;
    hide IsBehind;
    if es != [] {
      StepByIndex(target, h, w, es[0]);
      RunByIndex(target, Step(target, h, es[0]), Intend(target, w, es[0]), es[1..]);
    }
  }

  /** Over every orderly run: Duplicate counts exactly the arrivals of a packet that is waiting to be
      played, Late exactly those behind the last packet played, or before the first to arrive. */
  lemma RejectionsByIndex(target: int, es: seq<Event>)
    requires LegalRun(target, START, es) && Orderly(target, IDLE, es)
    ensures var st := Run(target, START, es).s.stats;
            st.duplicate == Repeats(target, IDLE, es) && st.late == Behinds(target, IDLE, es)
  {
    hide Run;
    hide Duplicates;
    hide Lates;
    hide Repeats;
    hide Behinds;
    RejectionsAreCounted(target, es);
    RunByIndex(target, START, IDLE, es);
  }

  // ---- Nothing late, nothing lost ------------------------------------------------------------------

  /** What has arrived is what waits and what was played. */
  ghost predicate AllKept(arrived: set<int>, w: Session) {
    && arrived == w.u.buf.Keys + (set k | k in w.played)
    && (!w.started ==> arrived == {})
  }

  ghost function IndexOf(e: Event): set<int> {
    if e.Arrive? then {e.a.k} else {}
  }

  ghost function IndicesOf(es: seq<Event>): set<int> {
    set i | 0 <= i < |es| && es[i].Arrive? :: es[i].a.k
  }

  lemma IndicesSplit(es: seq<Event>)
    requires es != []
    ensures IndicesOf(es) == IndexOf(es[0]) + IndicesOf(es[1..])
  {
    forall k | k in IndicesOf(es) ensures k in IndexOf(es[0]) + IndicesOf(es[1..]) {
      var i :| 0 <= i < |es| && es[i].Arrive? && es[i].a.k == k;
      if i > 0 { assert es[1..][i - 1] == es[i]; }
    }
    forall k | k in IndicesOf(es[1..]) ensures k in IndicesOf(es) {
      var i :| 0 <= i < |es[1..]| && es[1..][i].Arrive? && es[1..][i].a.k == k;
      assert es[i + 1] == es[1..][i];
    }
  }

  lemma StepKeepsAll(target: int, s: Jitter, w: Session, arrived: set<int>, e: Event)
    requires InStep(s, w) && OrderlyAt(w, e) && AllKept(arrived, w) && !IsBehind(w, e)
    requires e.Tick? ==> EmitRun(s, e.now, e.ts)
    ensures AllKept(arrived + IndexOf(e), Intend(target, w, e))
  {
    hide Tracks;
    hide InOrderAt;
    hide NoneBehind;
    hide PlayPrefix;
    hide EmitRun;
    match e
    case Arrive(a) =>
    case Tick(now, ts) =>
      assert arrived + {} == arrived;
      if w.started {
        TickIsPlayPrefix(s, w.u, now, ts);
        PrefixMoves(w.u, now, PlayPrefix(w.u, now).0, PlayPrefix(w.u, now).1);
        var ks := PlayPrefix(w.u, now).1;
        assert (set k | k in w.played + ks) == (set k | k in w.played) + (set k | k in ks);
      } else {
        IdleStays(target, s, w, now, ts);
      }
  }

  lemma IdleStays(target: int, s: Jitter, w: Session, now: int, ts: seq<Turn>)
    requires InStep(s, w) && !w.started && EmitRun(s, now, ts)
    ensures Intend(target, w, Tick(now, ts)) == w
  {
    IdleTick(target, s, w, now, ts);
  }

  lemma PrefixMoves(u: State<Packet>, now: int, v: State<Packet>, ks: seq<int>)
    requires Advances(u, now, v, ks)
    ensures u.buf.Keys == v.buf.Keys + (set k | k in ks)
  {
    forall k | k in ks ensures k in u.buf {
      var i :| 0 <= i < |ks| && ks[i] == k;
      assert Due(u, now, ks[i]);
    }
  }

  lemma {:induction false} RunKeepsAll(target: int, h: History, w: Session, arrived: set<int>, es: seq<Event>)
    requires LegalRun(target, h, es) && Orderly(target, w, es) && InStep(h.s, w)
    requires AllKept(arrived, w) && Behinds(target, w, es) == 0
    ensures AllKept(arrived + IndicesOf(es), Intended(target, w, es))
    decreases es
  {
    hide InStep;
    hide Step;
    hide EmitRun;
    hide Intend;
    hide OrderlyAt;
    hide IsBehind;
    hide AllKept;
    hide IndicesOf;
    hide IndexOf;
    if es == [] {
      NoIndices();
      assert arrived + {} == arrived;
    } else {
      StepByIndex(target, h, w, es[0]);
      StepKeepsAll(target, h.s, w, arrived, es[0]);
      IndicesSplit(es);
      RunKeepsAll(target, Step(target, h, es[0]), Intend(target, w, es[0]), arrived + IndexOf(es[0]), es[1..]);
      assert (arrived + IndexOf(es[0])) + IndicesOf(es[1..]) == arrived + IndicesOf(es);
    }
  }

  lemma NoIndices()
    ensures IndicesOf([]) == {}
  {
  }

  /** Over every orderly run with no arrival counted late, every index that arrived was played or waits in the
      buffer: once that is empty, exactly what arrived was played. */
  lemma NoneLateMeansAllPlayed(target: int, es: seq<Event>)
    requires LegalRun(target, START, es) && Orderly(target, IDLE, es)
    requires Run(target, START, es).s.stats.late == 0 && Run(target, START, es).s.buf == map[]
    ensures forall k :: k in Intended(target, IDLE, es).played <==> k in IndicesOf(es)
  {
    hide Behinds;
    hide Run;
    hide Intended;
    hide LegalRun;
    hide Orderly;
    hide Tracks;
    RejectionsByIndex(target, es);
    RunKeepsAll(target, START, IDLE, {}, es);
    OrderlyRunFrom(target, START, IDLE, {}, es);
    var r, w := Run(target, START, es), Intended(target, IDLE, es);
    if w.started {
      EmptyTracksEmpty(r.s, w.u);
    }
    assert w.u.buf.Keys == {};
    var played := set k | k in w.played;
    assert AllKept({} + IndicesOf(es), w);
    assert {} + IndicesOf(es) == {} + played && {} + played == played;
    assert IndicesOf(es) == played;
  }

  lemma EmptyTracksEmpty(s: Jitter, u: State<Packet>)
    requires Tracks(s, u, u.exp) && s.buf == map[]
    ensures u.buf.Keys == {}
  {
    forall k ensures k !in u.buf {
      assert Wrap(k) !in s.buf;
    }
  }
}

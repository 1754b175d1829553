/** The Reordered counter of server/internal/rtp/jitter.go over whole runs. */
module JitterReordered {
  import opened SerialNumber
  import opened Wrappers
  import opened Playout
  import opened JitterSpec
  import opened JitterRefinement
  import opened JitterRuns

  function Largest(ks: seq<int>): (m: int)
    requires ks != []
    ensures m in ks && forall i :: 0 <= i < |ks| ==> ks[i] <= m
  {
    var n := |ks| - 1;
    if n == 0 || Largest(ks[..n]) <= ks[n] then ks[n] else Largest(ks[..n])
  }

  /** How many of the indices stand behind an earlier, larger one. */
  ghost function BehindEarlier(ks: seq<int>): nat {
    if ks == [] then 0
    else
      var n := |ks| - 1;
      BehindEarlier(ks[..n]) + if exists j :: 0 <= j < n && ks[n] < ks[j] then 1 else 0
  }

  /** No index is exactly 32768 ahead of the largest before it. */
  ghost predicate NoJump(ks: seq<int>) {
    |ks| <= 1 || (var n := |ks| - 1; NoJump(ks[..n]) && ks[n] != Largest(ks[..n]) + 32768)
  }

  lemma {:induction false} NoJumpPrefix(a: seq<int>, b: seq<int>)
    requires NoJump(a + b)
    ensures NoJump(a)
    decreases |b|
  {
    hide NoJump;
    hide Largest;
    hide BehindEarlier;
    NothingBehind();
    if b == [] {
      assert a + b == a;
    } else {
      var n := |b| - 1;
      assert a + b == (a + b[..n]) + [b[n]];
      MarksSnoc(a + b[..n], b[n]);
      NoJumpPrefix(a, b[..n]);
    }
  }

  /** The index an event makes the buffer keep, if any. */
  function KeptBy(w: Session, e: Event): seq<int> {
    if e.Arrive? && (!w.started || Kept(w, e.a)) then [e.a.k] else []
  }

  /** The indices of all kept arrivals, in order of arrival. */
  ghost function KeptOf(target: int, w: Session, es: seq<Event>): seq<int>
    decreases es
  {
    if es == [] then [] else KeptBy(w, es[0]) + KeptOf(target, Intend(target, w, es[0]), es[1..])
  }

  /** maxSeen is the largest index kept, and Reordered counts those behind an earlier one. */
  ghost predicate Marks(s: Jitter, past: seq<int>) {
    && (s.haveSeq <==> past != [])
    && (s.haveSeq ==> s.maxSeen == Wrap(Largest(past)))
    && s.stats.reordered == BehindEarlier(past)
  }

  lemma {:induction false} EmitKeepsMarks(s: Jitter, now: int, ts: seq<Turn>)
    requires LegalTurns(s, now, ts)
    ensures var e := End(s, now, ts);
            e.haveSeq == s.haveSeq && e.maxSeen == s.maxSeen && e.stats.reordered == s.stats.reordered
    decreases ts
  {
    if ts != [] {
      EmitKeepsMarks(Turned(s, now, ts[0]), now, ts[1..]);
    }
  }

  lemma MarksSnoc(past: seq<int>, k: int)
    ensures past == [] ==> Largest(past + [k]) == k && BehindEarlier(past + [k]) == 0 && NoJump(past + [k])
    ensures past != [] ==>
              && Largest(past + [k]) == (if Largest(past) <= k then k else Largest(past))
              && BehindEarlier(past + [k]) == BehindEarlier(past) + (if k < Largest(past) then 1 else 0)
              && (NoJump(past + [k]) <==> NoJump(past) && k != Largest(past) + 32768)
  {
    assert (past + [k])[..|past|] == past;
    if past != [] && k < Largest(past) {
      var j :| 0 <= j < |past| && past[j] == Largest(past);
      assert (past + [k])[j] > k;
    }
  }

  /** The position is at most right behind the largest kept index, which bounds the buffer and lies less
      than half the sequence space ahead. */
  ghost predicate Reach(w: Session, past: seq<int>) {
    && (w.started <==> past != [])
    && (w.started ==>
          && w.u.exp - 1 <= Largest(past) < w.u.exp + 32768
          && forall k :: k in w.u.buf ==> k <= Largest(past))
  }

  lemma PushReach(target: int, w: Session, a: Arrival, past: seq<int>)
    requires Reach(w, past) && OrderlyAt(w, Arrive(a))
    ensures Reach(Intend(target, w, Arrive(a)), past + KeptBy(w, Arrive(a)))
  {
    hide Largest;
    hide BehindEarlier;
    hide NoJump;
    hide Wrap;
    MarksSnoc(past, a.k);
    assert past + [] == past;
  }

  lemma TickReach(target: int, s: Jitter, w: Session, now: int, ts: seq<Turn>, past: seq<int>)
    requires InStep(s, w) && OrderlyAt(w, Tick(now, ts)) && EmitRun(s, now, ts) && Reach(w, past)
    ensures Reach(Intend(target, w, Tick(now, ts)), past)
  {
    hide Largest;
    hide PlayPrefix;
    hide InOrderAt;
    hide Tracks;
    if w.started {
      TickIsPlayPrefix(s, w.u, now, ts);
    } else {
      IdleTick(target, s, w, now, ts);
    }
  }

  lemma KeptMarksIff(s: Jitter, k: int, p: Packet, due: int, past: seq<int>)
    requires Marks(s, past) && NoJump(past) && s.haveSeq
    requires p.seqNum == Wrap(k) && Classify(s, p.seqNum) == Fresh && -32768 <= k - Largest(past) <= 32768
    ensures Marks(Push(s, p, due), past + [k]) <==> NoJump(past + [k])
  {
    hide Largest;
    hide BehindEarlier;
    hide NoJump;
    hide Wrap;
    hide SeqBefore;
    hide Push;
    hide Classify;
    var m := Largest(past);
    MarksSnoc(past, k);
    ReorderedIffInWindow(s, m, k, p, due);
    PushTouchesMarks(s, p, due);
  }

  lemma PushTouchesMarks(s: Jitter, p: Packet, due: int)
    ensures var e := Push(s, p, due);
            && e.haveSeq && (!s.haveSeq ==> e.maxSeen == p.seqNum && e.stats.reordered == s.stats.reordered)
            && (s.haveSeq && Classify(s, p.seqNum) != Fresh ==>
                  e.maxSeen == s.maxSeen && e.stats.reordered == s.stats.reordered)
            && (e.stats.reordered == s.stats.reordered || e.stats.reordered == s.stats.reordered + 1)
  {
  }

  lemma PushMarksIff(target: int, s: Jitter, w: Session, a: Arrival, past: seq<int>)
    requires InStep(s, w) && OrderlyAt(w, Arrive(a)) && Reach(w, past) && Marks(s, past) && NoJump(past)
    ensures Marks(Push(s, a.p, a.recv + target), past + KeptBy(w, Arrive(a))) <==> NoJump(past + KeptBy(w, Arrive(a)))
  {
    hide Largest;
    hide BehindEarlier;
    hide NoJump;
    hide Wrap;
    hide SeqBefore;
    hide Push;
    hide Classify;
    hide Tracks;
    PushTouchesMarks(s, a.p, a.recv + target);
    if w.started {
      PushRefines(s, w.u, a.k, a.p, a.recv + target);
      if Kept(w, a) {
        KeptMarksIff(s, a.k, a.p, a.recv + target, past);
      } else {
        assert past + [] == past;
      }
    } else {
      NothingBehind();
      MarksSnoc([], a.k);
    }
  }

  lemma NothingBehind()
    ensures BehindEarlier([]) == 0 && NoJump([])
  {
  }

  lemma StepMarksIff(target: int, h: History, w: Session, e: Event, past: seq<int>)
    requires CanStep(h, e) && InStep(h.s, w) && OrderlyAt(w, e)
    requires Reach(w, past) && Marks(h.s, past) && NoJump(past)
    ensures Marks(Step(target, h, e).s, past + KeptBy(w, e)) <==> NoJump(past + KeptBy(w, e))
    ensures Reach(Intend(target, w, e), past + KeptBy(w, e))
  {
    hide InStep;
    hide Marks;
    hide Reach;
    hide OrderlyAt;
    hide Intend;
    hide Push;
    match e {
      case Arrive(a) =>
        PushMarksIff(target, h.s, w, a, past);
        PushReach(target, w, a, past);
      case Tick(now, ts) =>
        TickMarks(h.s, now, ts, past);
        TickReach(target, h.s, w, now, ts, past);
        assert past + [] == past;
    }
  }

  lemma TickMarks(s: Jitter, now: int, ts: seq<Turn>, past: seq<int>)
    requires EmitRun(s, now, ts) && Marks(s, past)
    ensures Marks(End(s, now, ts), past)
  {
    hide End;
    EmitKeepsMarks(s, now, ts);
  }

  /** The marks are right before and after every event. */
  ghost predicate MarksThroughout(target: int, h: History, w: Session, past: seq<int>, es: seq<Event>)
    requires LegalRun(target, h, es)
    decreases es
  {
    && Marks(h.s, past)
    && (es == []
        || MarksThroughout(target, Step(target, h, es[0]), Intend(target, w, es[0]), past + KeptBy(w, es[0]), es[1..]))
  }

  lemma {:induction false} RunMarksIff(
    target: int, h: History, w: Session, arrived: set<Arrival>, past: seq<int>, es: seq<Event>)
    requires LegalRun(target, h, es) && Orderly(target, w, es)
    requires InStep(h.s, w) && Genuine(target, arrived, h.output, w)
    requires Marks(h.s, past) && Reach(w, past) && NoJump(past)
    ensures MarksThroughout(target, h, w, past, es) <==> NoJump(past + KeptOf(target, w, es))
    ensures NoJump(past + KeptOf(target, w, es)) ==> Marks(Run(target, h, es).s, past + KeptOf(target, w, es))
    decreases es
  {
    hide InStep;
    hide Genuine;
    hide Intend;
    hide OrderlyAt;
    hide CanStep;
    hide Step;
    hide Marks;
    hide Reach;
    hide NoJump;
    hide KeptBy;
    if es == [] {
      assert past + [] == past;
    } else {
      var e, more := es[0], KeptBy(w, es[0]);
      var rest := KeptOf(target, Intend(target, w, e), es[1..]);
      assert past + (more + rest) == (past + more) + rest;
      StepMarksIff(target, h, w, e, past);
      if NoJump(past + more) {
        OrderlyStep(target, h, w, arrived, e);
        RunMarksIff(target, Step(target, h, e), Intend(target, w, e),
                    arrived + (if e.Arrive? then {e.a} else {}), past + more, es[1..]);
      } else {
        StartsWithMarks(target, Step(target, h, e), Intend(target, w, e), past + more, es[1..]);
        if NoJump((past + more) + rest) {
          NoJumpPrefix(past + more, rest);
        }
      }
    }
  }

  lemma StartsWithMarks(target: int, h: History, w: Session, past: seq<int>, es: seq<Event>)
    requires LegalRun(target, h, es)
    ensures MarksThroughout(target, h, w, past, es) ==> Marks(h.s, past)
  {
  }

  /** Over every orderly run: at every moment Reordered is the number of kept arrivals behind an earlier
      kept one and maxSeen is the largest index kept, if and only if no kept arrival is exactly 32768
      ahead of the largest kept before it. */
  lemma ReorderedCountsOvertakenIff(target: int, es: seq<Event>)
    requires LegalRun(target, START, es) && Orderly(target, IDLE, es)
    ensures MarksThroughout(target, START, IDLE, [], es) <==> NoJump(KeptOf(target, IDLE, es))
    ensures NoJump(KeptOf(target, IDLE, es)) ==> Marks(Run(target, START, es).s, KeptOf(target, IDLE, es))
  {
    hide KeptOf;
    hide Run;
    hide LegalRun;
    hide Orderly;
    hide MarksThroughout;
    NothingBehind();
    var ks := KeptOf(target, IDLE, es);
    assert [] + ks == ks;
    RunMarksIff(target, START, IDLE, {}, [], es);
  }
}

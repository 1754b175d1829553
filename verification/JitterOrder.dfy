/** Playing in order, said of the output: an Emit followed by one late enough to play everything that
    is left. Behind it stands server/internal/rtp/jitter.go, lines 108-146. */
module JitterOrder {
  import opened SerialNumber
  import opened Wrappers
  import opened Playout
  import opened JitterSpec
  import opened JitterRefinement
  import opened JitterRuns

  /** out is the packets of u at the indices ks, which increase. */
  ghost predicate Selects(u: State<Packet>, ks: seq<int>, out: seq<Packet>) {
    Increasing(ks) && (forall i :: 0 <= i < |ks| ==> ks[i] in u.buf) && out == PacketsAt(u, ks)
  }

  /** out is packets of u in the order of their true indices. */
  ghost predicate InTrueOrder(u: State<Packet>, out: seq<Packet>) {
    exists ks :: Selects(u, ks, out)
  }

  ghost predicate AllDue(s: Jitter, now: int) {
    forall q :: q in s.buf ==> s.buf[q].due <= now
  }

  /** An Emit at which everything is due plays everything, in whatever order. */
  lemma DrainPlaysAll(s: Jitter, now: int, ts: seq<Turn>)
    requires Inv(s) && EmitRun(s, now, ts) && AllDue(s, now)
    ensures End(s, now, ts).buf == map[]
    ensures forall q :: q in s.buf ==> s.buf[q].p in Out(s, now, ts)
  {
    EmitConserves(s, now, ts);
    hide End;
    hide Out;
    var e, out := End(s, now, ts), Out(s, now, ts);
    forall q | q in s.buf ensures s.buf[q].p in out {
      assert Count(out, s.buf[q].p) + Held(e, s.buf[q].p) == Held(s, s.buf[q].p);
    }
  }

  lemma EmitKeepsDue(s: Jitter, now: int, ts: seq<Turn>, later: int)
    requires Inv(s) && EmitRun(s, now, ts) && AllDue(s, later)
    ensures Inv(End(s, now, ts)) && AllDue(End(s, now, ts), later)
  {
    EmitConserves(s, now, ts);
    hide End;
  }

  /** An index left behind lies before the last one played. */
  lemma LeftBehindIsOvertaken(u: State<Packet>, now: int, moves: seq<Move>, a: int)
    requires NoneBehind(u) && Emission(u, now, moves)
    requires a in Final(u, moves).buf && a < Final(u, moves).exp
    ensures a in u.buf && Played(u, moves) != [] && a < Played(u, moves)[|Played(u, moves)| - 1]
  {
    EmissionAccounts(u, now, moves);
    StopsAfterLast(u, now, moves);
    hide Final;
    hide Played;
    hide Emission;
    var ks := Played(u, moves);
    assert ks != [] ==> ks[|ks| - 1] in (set k | k in ks);
  }

  /** Two indices of the buffer with the same packet are one. */
  lemma SamePacketSameIndex(s: Jitter, u: State<Packet>, j: int, k: int)
    requires Tracks(s, u, u.exp) && j in u.buf && k in u.buf && u.buf[j].p == u.buf[k].p
    ensures j == k
  {
    WrapInjective(j, k);
  }

  /** A packet that comes after a later one spoils the order. */
  lemma LaterFirstSpoils(
    s: Jitter, u: State<Packet>, a: int, b: int, out1: seq<Packet>, out2: seq<Packet>, ks: seq<int>)
    requires Tracks(s, u, u.exp) && a in u.buf && b in u.buf && a < b
    requires u.buf[b].p in out1 && u.buf[a].p in out2
    ensures !Selects(u, ks, out1 + out2)
  {
    hide Tracks;
    var all := out1 + out2;
    if Selects(u, ks, all) {
      var i :| 0 <= i < |out1| && out1[i] == u.buf[b].p;
      var j :| 0 <= j < |out2| && out2[j] == u.buf[a].p;
      assert all[i] == out1[i] && all[|out1| + j] == out2[j];
      assert all[i] == u.buf[ks[i]].p && all[|out1| + j] == u.buf[ks[|out1| + j]].p;
      SamePacketSameIndex(s, u, ks[i], b);
      SamePacketSameIndex(s, u, ks[|out1| + j], a);
    }
  }

  /** When the condition fails, the Emit plays some b and leaves an earlier a in the buffer. */
  lemma StrandedPair(s: Jitter, u: State<Packet>, now: int, ts: seq<Turn>) returns (a: int, b: int)
    requires Tracks(s, u, u.exp) && NoneBehind(u) && EmitRun(s, now, ts) && !InOrderAt(u, now)
    ensures a in u.buf && b in u.buf && a < b && u.buf[b].p in Out(s, now, ts)
    ensures Wrap(a) in End(s, now, ts).buf && End(s, now, ts).buf[Wrap(a)] == u.buf[a]
  {
    hide End;
    hide Out;
    hide Final;
    hide Played;
    hide InOrderAt;
    hide Emission;
    hide LegalTurns;
    hide Stopped;
    hide DuePrefix;
    hide Tracks;
    hide NoneStranded;
    var moves := EmitStrandsNothingIff(s, u, now, ts);
    LeavesNoneBehindIff(u, now, moves);
    var v, ks := Final(u, moves), Played(u, moves);
    a :| a in v.buf && a < v.exp;
    LeftBehindIsOvertaken(u, now, moves, a);
    b := ks[|ks| - 1];
    StrandedIsHeld(u, now, moves, End(s, now, ts), a);
    assert Out(s, now, ts)[|ks| - 1] == u.buf[b].p;
  }

  lemma StrandedSpoils(s: Jitter, u: State<Packet>, now: int, ts: seq<Turn>, later: int, us: seq<Turn>)
    requires Tracks(s, u, u.exp) && NoneBehind(u) && Inv(s) && AllDue(s, later)
    requires EmitRun(s, now, ts) && EmitRun(End(s, now, ts), later, us) && !InOrderAt(u, now)
    ensures !InTrueOrder(u, Out(s, now, ts) + Out(End(s, now, ts), later, us))
  {
    hide Selects;
    hide Tracks;
    hide NoneBehind;
    hide Inv;
    hide AllDue;
    hide InOrderAt;
    hide End;
    hide Out;
    var e := End(s, now, ts);
    var a, b := StrandedPair(s, u, now, ts);
    EmitKeepsDue(s, now, ts, later);
    DrainPlaysAll(e, later, us);
    forall ks ensures !Selects(u, ks, Out(s, now, ts) + Out(e, later, us)) {
      LaterFirstSpoils(s, u, a, b, Out(s, now, ts), Out(e, later, us), ks);
    }
  }

  /** A packet left in playout's buffer is left in the 16-bit one. */
  lemma StrandedIsHeld(u: State<Packet>, now: int, moves: seq<Move>, e: Jitter, a: int)
    requires Emission(u, now, moves) && Tracks(e, Final(u, moves), u.exp) && a in Final(u, moves).buf
    ensures a in u.buf && Wrap(a) in e.buf && e.buf[Wrap(a)] == u.buf[a]
  {
    EmissionAccounts(u, now, moves);
    hide Final;
    hide Played;
  }

  lemma OrderedStaysOrdered(s: Jitter, u: State<Packet>, now: int, ts: seq<Turn>, later: int, us: seq<Turn>)
    requires Tracks(s, u, u.exp) && NoneBehind(u) && Inv(s) && AllDue(s, later)
    requires EmitRun(s, now, ts) && EmitRun(End(s, now, ts), later, us) && InOrderAt(u, now)
    ensures InTrueOrder(u, Out(s, now, ts) + Out(End(s, now, ts), later, us))
  {
    var e := End(s, now, ts);
    var moves := EmitStrandsNothingIff(s, u, now, ts);
    EmissionAccounts(u, now, moves);
    EmissionIsOrdered(u, now, moves);
    var v := Final(u, moves);
    var rest := EmitStrandsNothingIff(e, v, later, us);
    EmissionIsOrdered(v, later, rest);
    hide End;
    hide Out;
    hide Final;
    hide Played;
    hide EmitRun;
    JoinSelections(u, v, Played(u, moves), Played(v, rest), Out(s, now, ts), Out(e, later, us));
  }

  lemma JoinSelections(
    u: State<Packet>, v: State<Packet>, ks: seq<int>, more: seq<int>, out1: seq<Packet>, out2: seq<Packet>)
    requires Selects(u, ks, out1) && Selects(v, more, out2) && v.buf == u.buf - (set k | k in ks)
    requires (forall k :: k in ks ==> k < v.exp) && NoneBehind(v)
    ensures InTrueOrder(u, out1 + out2)
  {
    assert forall i :: 0 <= i < |ks| ==> ks[i] in ks;
    IncreasingConcat(ks, more, v.exp);
    assert Selects(u, ks + more, out1 + out2);
  }

  /** Exactly when the output is in order. Of an Emit and of a later one at which everything that was
      buffered is due, the output together is in the order of the true indices if and only if the
      deadline condition held at the first. */
  lemma OutputInOrderIff(s: Jitter, u: State<Packet>, now: int, ts: seq<Turn>, later: int, us: seq<Turn>)
    requires Tracks(s, u, u.exp) && NoneBehind(u) && Inv(s) && AllDue(s, later)
    requires EmitRun(s, now, ts) && EmitRun(End(s, now, ts), later, us)
    ensures InTrueOrder(u, Out(s, now, ts) + Out(End(s, now, ts), later, us)) <==> InOrderAt(u, now)
  {
    hide Tracks;
    hide InTrueOrder;
    hide InOrderAt;
    if InOrderAt(u, now) {
      OrderedStaysOrdered(s, u, now, ts, later, us);
    } else {
      StrandedSpoils(s, u, now, ts, later, us);
    }
  }

  /** The same after any orderly run: everything played by the run, by an Emit and by a later one at which
      all that was buffered is due comes in the order of the true indices if and only if the deadline
      condition held at the first of the two. */
  lemma RunOutputInOrderIff(target: int, es: seq<Event>, now: int, ts: seq<Turn>, later: int, us: seq<Turn>)
    requires LegalRun(target, START, es) && Orderly(target, IDLE, es) && Intended(target, IDLE, es).started
    requires var s := Run(target, START, es).s;
             EmitRun(s, now, ts) && EmitRun(End(s, now, ts), later, us) && AllDue(s, later)
    ensures var s, w := Run(target, START, es).s, Intended(target, IDLE, es);
            (exists ks :: Increasing(w.played + ks) &&
               Selects(w.u, ks, Out(s, now, ts) + Out(End(s, now, ts), later, us)))
            <==> InOrderAt(w.u, now)
  {
    OrderlyRunFrom(target, START, IDLE, {}, es);
    RunAccountsFrom(target, START, es);
    hide LegalRun;
    hide Orderly;
    hide Genuine;
    hide Conserved;
    hide Counted;
    hide Tracks;
    hide InOrderAt;
    hide EmitRun;
    hide Run;
    hide Intended;
    hide AllDue;
    var s, w := Run(target, START, es).s, Intended(target, IDLE, es);
    OutputInOrderIff(s, w.u, now, ts, later, us);
    AppendsIff(w.u, w.played, Out(s, now, ts) + Out(End(s, now, ts), later, us));
  }

  /** Behind what was played already the order is kept exactly when it is kept by itself. */
  lemma AppendsIff(u: State<Packet>, played: seq<int>, out: seq<Packet>)
    requires NoneBehind(u) && Increasing(played) && forall k :: k in played ==> k < u.exp
    ensures (exists ks :: Increasing(played + ks) && Selects(u, ks, out)) <==> InTrueOrder(u, out)
  {
    if ks :| Selects(u, ks, out) {
      assert forall i :: 0 <= i < |played| ==> played[i] in played;
      IncreasingConcat(played, ks, u.exp);
    }
  }
}

/** The 16-bit jitter buffer follows playout over unbounded indices as long as what it holds
    lies within half the sequence space from one base index. */
module JitterRefinement {
  import opened SerialNumber
  import opened Wrappers
  import opened Playout
  import opened JitterSpec

  /** s is the 16-bit image of u; every buffered index lies in [base, base + 32768). */
  ghost predicate Tracks(s: Jitter, u: State<Packet>, base: int) {
    && s.haveSeq && s.expected == Wrap(u.exp) && s.stats.lost == u.lost
    && base <= u.exp <= base + 32768
    && (forall k :: k in u.buf ==>
          base <= k < base + 32768 && Wrap(k) in s.buf && s.buf[Wrap(k)] == u.buf[k] && u.buf[k].p.seqNum == Wrap(k))
    && (forall q :: q in s.buf ==> Index(base, q) in u.buf)
  }

  // ---- The scan ----------------------------------------------------------------------

  /** nextPresentDue finds the due packet of least index, whatever order the map was
      visited in. */
  lemma {:induction false} ScanFindsLeast(s: Jitter, u: State<Packet>, base: int, now: int, order: seq<U16>)
    requires Tracks(s, u, base) && forall q :: q in order ==> q in s.buf
    ensures match ScanDue(s.buf, now, order)
            case None => forall q :: q in order ==> !Due(u, now, Index(base, q))
            case Some(b) =>
              var k := Index(base, b.p.seqNum);
              && b.p.seqNum in order && Due(u, now, k) && u.buf[k] == b
              && forall q :: q in order && Due(u, now, Index(base, q)) ==> k <= Index(base, q)
    decreases order
  {
    if order != [] {
      var front, q := order[..|order| - 1], order[|order| - 1];
      ScanFindsLeast(s, u, base, now, front);
      assert order == front + [q];
      var b, best := s.buf[q], ScanDue(s.buf, now, front);
      var k := Index(base, q);
      assert k in u.buf && u.buf[k] == b && b.p.seqNum == q;
      if best.Some? {
        var r := best.value.p.seqNum;
        DistanceIsDifference(base, k);
        DistanceIsDifference(base, Index(base, r));
        BeforeOrdersHalfWindow(Wrap(base), q, r);
      }
      forall j | j in order ensures j in front || j == q {
      }
    }
  }

  lemma FullScanFindsLeast(s: Jitter, u: State<Packet>, base: int, now: int, order: seq<U16>)
    requires Tracks(s, u, base) && Enumerates(order, s.buf)
    ensures match ScanDue(s.buf, now, order)
            case None => forall k :: !Due(u, now, k)
            case Some(b) => var k := Index(base, b.p.seqNum); IsLeastDue(u, now, k) && u.buf[k] == b
  {
    ScanFindsLeast(s, u, base, now, order);
    forall j | Due(u, now, j) ensures Wrap(j) in order && Index(base, Wrap(j)) == j {
      IndexOfWrap(base, j);
    }
  }

  /** The order in which the map is visited does not matter. */
  lemma ScanIgnoresOrder(s: Jitter, u: State<Packet>, base: int, now: int, o1: seq<U16>, o2: seq<U16>)
    requires Tracks(s, u, base) && Enumerates(o1, s.buf) && Enumerates(o2, s.buf)
    ensures ScanDue(s.buf, now, o1) == ScanDue(s.buf, now, o2)
  {
    FullScanFindsLeast(s, u, base, now, o1);
    FullScanFindsLeast(s, u, base, now, o2);
  }

  // ---- Turns are moves ---------------------------------------------------------------

  ghost function MoveOf(s: Jitter, base: int, now: int, t: Turn): Move
    requires CanTurn(s, now, t)
  {
    match t
    case Play => Deliver
    case GiveUp(order) => Skip(Index(base, ScanDue(s.buf, now, order).value.p.seqNum))
  }

  lemma ExpectedIsIndex(s: Jitter, u: State<Packet>, base: int)
    requires Tracks(s, u, base)
    ensures Index(base, s.expected) == u.exp
    ensures s.expected in s.buf <==> u.exp in u.buf
    ensures s.expected in s.buf ==> s.buf[s.expected] == u.buf[u.exp]
  {
    IndexOfWrap(base, u.exp);
  }

  lemma PlayRefines(s: Jitter, u: State<Packet>, base: int, now: int)
    requires Tracks(s, u, base) && CanTurn(s, now, Play)
    ensures CanMove(u, now, Deliver) && Tracks(Turned(s, now, Play), Moved(u, Deliver), base)
    ensures s.buf[s.expected] == u.buf[u.exp]
  {
    hide Wrap;
    hide Index;
    ExpectedIsIndex(s, u, base);
    WrapAdd(u.exp, 1);
    forall k | k in u.buf && k != u.exp ensures Wrap(k) != s.expected {
      IndexOfWrap(base, k);
    }
    forall q | q in s.buf && q != s.expected ensures Index(base, q) != u.exp {
      assert Wrap(Index(base, q)) == q;
    }
  }

  lemma GiveUpRefines(s: Jitter, u: State<Packet>, base: int, now: int, order: seq<U16>)
    requires Tracks(s, u, base) && NoneDueBehind(u, now) && CanTurn(s, now, GiveUp(order))
    ensures var m := MoveOf(s, base, now, GiveUp(order));
            CanMove(u, now, m) && Tracks(Turned(s, now, GiveUp(order)), Moved(u, m), base)
  {
    ExpectedIsIndex(s, u, base);
    FullScanFindsLeast(s, u, base, now, order);
    var k := Index(base, ScanDue(s.buf, now, order).value.p.seqNum);
    assert Due(u, now, k);
    DistanceIsDifference(u.exp, k);
  }

  lemma TurnRefines(s: Jitter, u: State<Packet>, base: int, now: int, t: Turn)
    requires Tracks(s, u, base) && NoneDueBehind(u, now) && CanTurn(s, now, t)
    ensures CanMove(u, now, MoveOf(s, base, now, t))
    ensures Tracks(Turned(s, now, t), Moved(u, MoveOf(s, base, now, t)), base)
    ensures t.Play? ==> s.expected in s.buf && u.exp in u.buf && s.buf[s.expected] == u.buf[u.exp]
  {
    match t
    case Play => PlayRefines(s, u, base, now);
    case GiveUp(order) => GiveUpRefines(s, u, base, now, order);
  }

  lemma StoppedRefines(s: Jitter, u: State<Packet>, base: int, now: int)
    requires Tracks(s, u, base)
    ensures Stopped(s, now) <==> Halted(u, now)
  {
    ExpectedIsIndex(s, u, base);
    forall q | q in s.buf ensures Index(base, q) in u.buf && s.buf[q] == u.buf[Index(base, q)] {
    }
    forall k | k in u.buf ensures Wrap(k) in s.buf && s.buf[Wrap(k)] == u.buf[k] {
    }
    if s.expected !in s.buf && Stopped(s, now) {
      forall k ensures !Due(u, now, k) {
        assert k in u.buf ==> Wrap(k) in s.buf;
      }
    }
    if s.expected !in s.buf && Halted(u, now) {
      forall q | q in s.buf ensures now < s.buf[q].due {
        assert !Due(u, now, Index(base, q));
      }
    }
  }

  /** The packets found at the given indices. */
  ghost function PacketsAt(u: State<Packet>, ks: seq<int>): seq<Packet>
    requires forall i :: 0 <= i < |ks| ==> ks[i] in u.buf
  {
    seq(|ks|, i requires 0 <= i < |ks| => u.buf[ks[i]].p)
  }

  lemma PlayedAreBuffered(u: State<Packet>, now: int, moves: seq<Move>)
    requires NoneDueBehind(u, now) && Legal(u, now, moves)
    ensures forall i :: 0 <= i < |Played(u, moves)| ==> Played(u, moves)[i] in u.buf
  {
    EmissionIsOrdered(u, now, moves);
    assert forall i :: 0 <= i < |Played(u, moves)| ==> Played(u, moves)[i] in Played(u, moves);
  }

  lemma PacketsAtMoved(u: State<Packet>, now: int, m: Move, rest: seq<Move>)
    requires NoneDueBehind(u, now) && Legal(u, now, [m] + rest)
    requires NoneDueBehind(Moved(u, m), now) && Legal(Moved(u, m), now, rest)
    ensures forall i :: 0 <= i < |Played(u, [m] + rest)| ==> Played(u, [m] + rest)[i] in u.buf
    ensures forall i :: 0 <= i < |Played(Moved(u, m), rest)| ==> Played(Moved(u, m), rest)[i] in Moved(u, m).buf
    ensures PacketsAt(u, Played(u, [m] + rest))
            == (if m.Deliver? && u.exp in u.buf then [u.buf[u.exp].p] else [])
               + PacketsAt(Moved(u, m), Played(Moved(u, m), rest))
  {
    PlayedAreBuffered(u, now, [m] + rest);
    PlayedAreBuffered(Moved(u, m), now, rest);
    assert ([m] + rest)[1..] == rest;
    assert Played(u, [m] + rest) == (if m.Deliver? then [u.exp] else []) + Played(Moved(u, m), rest);
  }

  function WrapAll(ks: seq<int>): seq<U16> {
    seq<U16>(|ks|, i requires 0 <= i < |ks| => Wrap(ks[i]))
  }

  lemma SkipDistance(s: Jitter, u: State<Packet>, base: int, now: int, order: seq<U16>)
    requires Tracks(s, u, base) && NoneDueBehind(u, now) && CanTurn(s, now, GiveUp(order))
    ensures var q, to := ScanDue(s.buf, now, order).value.p.seqNum, MoveOf(s, base, now, GiveUp(order)).to;
            && u.exp <= to && s.expected == Wrap(u.exp) && SeqDistance(s.expected, q) == to - u.exp
  {
    var m := MoveOf(s, base, now, GiveUp(order));
    TurnRefines(s, u, base, now, GiveUp(order));
    assert Due(u, now, m.to);
    DistanceIsDifference(u.exp, m.to);
  }

  lemma GapCallsWrap(a: int, b: int)
    requires a <= b
    ensures GapCalls(Wrap(a), b - a) == WrapAll(Gap(a, b, MAX_LOSS_HOOK_CALLS))
  {
    var calls, gap := GapCalls(Wrap(a), b - a), Gap(a, b, MAX_LOSS_HOOK_CALLS);
    forall i | 0 <= i < |gap| ensures calls[i] == Wrap(gap[i]) {
      WrapAdd(a, i);
    }
  }

  lemma GapCallsAreReported(s: Jitter, u: State<Packet>, base: int, now: int, t: Turn)
    requires Tracks(s, u, base) && NoneDueBehind(u, now) && CanTurn(s, now, t)
    ensures Hooks(s, now, [t]) == WrapAll(Reported(u, [MoveOf(s, base, now, t)], MAX_LOSS_HOOK_CALLS))
  {
    var m := MoveOf(s, base, now, t);
    assert [t][1..] == [] && [m][1..] == [];
    if t.GiveUp? {
      SkipDistance(s, u, base, now, t.order);
      hide Tracks;
      hide ScanDue;
      hide SeqDistance;
      hide Index;
      GapCallsWrap(u.exp, m.to);
      hide GapCalls;
      hide Gap;
      hide Wrap;
      assert Hooks(s, now, [t]) == GapCalls(s.expected, m.to - u.exp) + [];
      assert Reported(u, [m], MAX_LOSS_HOOK_CALLS) == Gap(u.exp, m.to, MAX_LOSS_HOOK_CALLS) + [];
    }
  }

  /** An Emit of the 16-bit buffer is an emission of unbounded playout: same packets, same order, same
      loss count, and the loss hook's arguments are the low 16 bits of the losses it reports. */
  lemma {:induction false} EmitRefines(
    s: Jitter, u: State<Packet>, base: int, now: int, ts: seq<Turn>)
    returns (moves: seq<Move>)
    requires Tracks(s, u, base) && NoneDueBehind(u, now) && LegalTurns(s, now, ts)
    ensures Legal(u, now, moves) && Tracks(End(s, now, ts), Final(u, moves), base)
    ensures forall i :: 0 <= i < |Played(u, moves)| ==> Played(u, moves)[i] in u.buf
    ensures Out(s, now, ts) == PacketsAt(u, Played(u, moves))
    ensures Hooks(s, now, ts) == WrapAll(Reported(u, moves, MAX_LOSS_HOOK_CALLS))
    decreases ts
  {
    hide Tracks;
    hide NoneDueBehind;
    hide CanMove;
    hide Moved;
    hide ScanDue;
    hide GapCalls;
    hide Wrap;
    if ts == [] {
      moves := [];
    } else {
      var t := ts[0];
      var m := MoveOf(s, base, now, t);
      TurnRefines(s, u, base, now, t);
      MoveKeepsNoneDueBehind(u, now, m);
      var rest := EmitRefines(Turned(s, now, t), Moved(u, m), base, now, ts[1..]);
      moves := [m] + rest;
      assert moves[1..] == rest;
      PacketsAtMoved(u, now, m, rest);
      GapCallsAreReported(s, u, base, now, t);
      HooksHead(s, now, ts);
      ReportedHead(u, m, rest);
    }
  }

  /** The loss hook is called for the numbers that the Emit passed and did not play, each once and in
      increasing order: for exactly the first 1024 of each gap, so never more often than Lost grows, and
      as often while the Emit advances by no more than 1024. */
  lemma HooksReportLosses(s: Jitter, u: State<Packet>, base: int, now: int, ts: seq<Turn>)
    returns (lost: seq<int>, played: seq<int>)
    requires Tracks(s, u, base) && NoneDueBehind(u, now) && LegalTurns(s, now, ts)
    ensures Hooks(s, now, ts) == WrapAll(lost) && Increasing(lost)
    ensures (forall i :: 0 <= i < |played| ==> played[i] in u.buf) && Out(s, now, ts) == PacketsAt(u, played)
    ensures var e, to := End(s, now, ts), Index(base, End(s, now, ts).expected);
            && u.exp <= to
            && (forall k :: k in lost <==> u.exp <= k < to && k !in played && NearStart(u.exp, played, 1024, k))
            && |lost| <= e.stats.lost - s.stats.lost
            && (to - u.exp <= 1024 ==> |lost| == e.stats.lost - s.stats.lost)
  {
    var moves := EmitRefines(s, u, base, now, ts);
    ReportedAreLost(u, now, moves, MAX_LOSS_HOOK_CALLS);
    EmissionIsOrdered(u, now, moves);
    ExpectedIsIndex(End(s, now, ts), Final(u, moves), base);
    lost, played := Reported(u, moves, MAX_LOSS_HOOK_CALLS), Played(u, moves);
    forall k
      ensures k in lost <==> u.exp <= k < Final(u, moves).exp && k !in played && NearStart(u.exp, played, 1024, k) {
      ReportedIff(u, now, moves, MAX_LOSS_HOOK_CALLS, k);
    }
  }

  lemma HooksHead(s: Jitter, now: int, ts: seq<Turn>)
    requires ts != [] && LegalTurns(s, now, ts)
    ensures Hooks(s, now, ts) == Hooks(s, now, [ts[0]]) + Hooks(Turned(s, now, ts[0]), now, ts[1..])
  {
    assert [ts[0]][1..] == [];
  }

  lemma ReportedHead(u: State<Packet>, m: Move, rest: seq<Move>)
    ensures WrapAll(Reported(u, [m] + rest, MAX_LOSS_HOOK_CALLS))
            == WrapAll(Reported(u, [m], MAX_LOSS_HOOK_CALLS))
               + WrapAll(Reported(Moved(u, m), rest, MAX_LOSS_HOOK_CALLS))
  {
    assert ([m] + rest)[1..] == rest && [m][1..] == [];
    assert Reported(u, [m] + rest, MAX_LOSS_HOOK_CALLS)
        == Reported(u, [m], MAX_LOSS_HOOK_CALLS) + Reported(Moved(u, m), rest, MAX_LOSS_HOOK_CALLS);
  }

  // ---- Arrivals ----------------------------------------------------------------------

  /** Playout's own view of an arrival with index k. */
  function Arrived(u: State<Packet>, k: int, item: Buffered<Packet>): State<Packet> {
    if k in u.buf || k < u.exp then u else Accepted(u, k, item)
  }

  /** The window in which 16 bits identify an arrival: up to 32768 behind the playing
      position, and less than 32768 ahead of it. */
  predicate InWindow(u: State<Packet>, k: int) {
    u.exp - 32768 <= k < u.exp + 32768
  }

  /** What a packet with true index k is: buffered twice is a duplicate, behind the position is
      late, anything else is kept. */
  function TrueVerdict(u: State<Packet>, k: int): Verdict {
    if k in u.buf then Duplicated else if k < u.exp then TooLate else Fresh
  }

  /** Within the window a packet is classified by its true index. */
  lemma PushRefines(s: Jitter, u: State<Packet>, k: int, p: Packet, due: int)
    requires Tracks(s, u, u.exp) && InWindow(u, k) && p.seqNum == Wrap(k)
    ensures Classify(s, p.seqNum) == TrueVerdict(u, k)
    ensures Tracks(Push(s, p, due), Arrived(u, k, Buffered(p, due)), u.exp)
  {
    BeforeIsLess(k, u.exp);
    assert Wrap(k) in s.buf ==> k in u.buf by {
      if Wrap(k) in s.buf { WrapInjective(Index(u.exp, Wrap(k)), k); }
    }
    var s', u' := Push(s, p, due), Arrived(u, k, Buffered(p, due));
    if Classify(s, p.seqNum) == Fresh {
      IndexOfWrap(u.exp, k);
      forall j | j in u'.buf ensures Wrap(j) in s'.buf && s'.buf[Wrap(j)] == u'.buf[j] {
        if j != k && Wrap(j) == Wrap(k) { WrapInjective(j, k); }
      }
    }
  }

  /** Up to a whole cycle away, the verdict on a packet is the true one exactly in the window. */
  lemma WindowIsExact(s: Jitter, u: State<Packet>, k: int)
    requires Tracks(s, u, u.exp) && -65536 < k - u.exp < 65536
    ensures Classify(s, Wrap(k)) == TrueVerdict(u, k) <==> InWindow(u, k)
  {
    BeforeIsLess(k, u.exp);
    if k >= u.exp {
      IndexOfWrap(u.exp, k);
    } else {
      WrapPeriod(k);
      IndexOfWrap(u.exp, k + 65536);
    }
    hide Wrap;
    hide SeqBefore;
    hide Index;
    assert Wrap(k) in s.buf ==> Index(u.exp, Wrap(k)) in u.buf;
  }

  /** However far away: the verdict on a packet is the true one of the only index in the window that has
      the same low 16 bits. */
  lemma VerdictIsOfWindow(s: Jitter, u: State<Packet>, k: int)
    requires Tracks(s, u, u.exp)
    ensures var r := Index(u.exp - 32768, Wrap(k));
            InWindow(u, r) && Wrap(r) == Wrap(k) && Classify(s, Wrap(k)) == TrueVerdict(u, r)
  {
    WindowIsExact(s, u, Index(u.exp - 32768, Wrap(k)));
    hide Wrap;
    hide Classify;
  }

  /** From a cycle behind on, however far ahead, a packet gets its true verdict and the buffer still stands for
      what arrived exactly in the window. */
  lemma IdentifiedIffInWindow(s: Jitter, u: State<Packet>, k: int, p: Packet, due: int)
    requires Tracks(s, u, u.exp) && p.seqNum == Wrap(k) && u.exp - 65536 < k
    ensures Classify(s, p.seqNum) == TrueVerdict(u, k)
            && Tracks(Push(s, p, due), Arrived(u, k, Buffered(p, due)), u.exp)
            <==> InWindow(u, k)
  {
    if InWindow(u, k) {
      PushRefines(s, u, k, p, due);
    } else if k < u.exp {
      WindowIsExact(s, u, k);
    } else {
      assert k in Arrived(u, k, Buffered(p, due)).buf;
    }
  }

  /** The Reordered counter and maxSeen, for a packet that is kept: with m the largest index kept so
      far, the packet is counted as reordered exactly when it is behind m, and maxSeen becomes the
      larger of the two, if and only if it lies in [m - 32768, m + 32768). */
  lemma ReorderedIffInWindow(s: Jitter, m: int, k: int, p: Packet, due: int)
    requires s.haveSeq && s.maxSeen == Wrap(m) && p.seqNum == Wrap(k) && Classify(s, p.seqNum) == Fresh
    requires -65536 < k - m < 65536
    ensures var e := Push(s, p, due);
            (e.stats.reordered == s.stats.reordered + (if k < m then 1 else 0)
             && e.maxSeen == Wrap(if k < m then m else k))
            <==> m - 32768 <= k < m + 32768
  {
    BeforeIsLess(k, m);
    WrapInjectiveBelow(m, k);
    hide Wrap;
    hide SeqBefore;
  }

  lemma WrapInjectiveBelow(m: int, n: int)
    requires -65536 < m - n < 65536
    ensures Wrap(m) == Wrap(n) ==> m == n
  {
  }

  // ---- Nothing stranded ----------------------------------------------------------------

  /** No buffered sequence number lies behind the expected one. */
  ghost predicate NoneStranded(s: Jitter) {
    forall q :: q in s.buf ==> SeqDistance(s.expected, q) < 32768
  }

  lemma StrandedIff(s: Jitter, u: State<Packet>, base: int)
    requires Tracks(s, u, base)
    ensures NoneStranded(s) <==> NoneBehind(u)
  {
    forall k | k in u.buf
      ensures SeqDistance(s.expected, Wrap(k)) < 32768 <==> u.exp <= k
    {
      if u.exp <= k {
        DistanceIsDifference(u.exp, k);
      } else {
        WrapAdd(k, 65536);
        assert Wrap(k) == Wrap(k + 65536);
        DistanceIsDifference(u.exp, k + 65536);
      }
    }
    if NoneBehind(u) {
      forall q | q in s.buf ensures SeqDistance(s.expected, q) < 32768 {
        assert Index(base, q) in u.buf;
      }
    }
    if NoneStranded(s) {
      forall k | k in u.buf ensures u.exp <= k {
        assert Wrap(k) in s.buf;
      }
    }
  }

  lemma Rebase(s: Jitter, u: State<Packet>, base: int)
    requires Tracks(s, u, base) && NoneBehind(u)
    ensures Tracks(s, u, u.exp)
  {
    forall q | q in s.buf ensures Index(u.exp, q) in u.buf {
      IndexOfWrap(u.exp, Index(base, q));
    }
  }

  /** Exactly when Emit leaves no packet behind: a condition on the deadlines buffered before
      the call. When it holds, Emit plays the due prefix of the buffer in order. */
  lemma EmitStrandsNothingIff(s: Jitter, u: State<Packet>, now: int, ts: seq<Turn>) returns (moves: seq<Move>)
    requires Tracks(s, u, u.exp) && NoneBehind(u) && EmitRun(s, now, ts)
    ensures NoneStranded(End(s, now, ts)) <==> InOrderAt(u, now)
    ensures Emission(u, now, moves) && Tracks(End(s, now, ts), Final(u, moves), u.exp)
    ensures forall i :: 0 <= i < |Played(u, moves)| ==> Played(u, moves)[i] in u.buf
    ensures Out(s, now, ts) == PacketsAt(u, Played(u, moves)) && Increasing(Played(u, moves))
    ensures InOrderAt(u, now) ==>
              && (set k | k in Played(u, moves)) == DuePrefix(u, now)
              && NoneBehind(Final(u, moves)) && Tracks(End(s, now, ts), Final(u, moves), Final(u, moves).exp)
  {
    assert NoneDueBehind(u, now);
    moves := EmitRefines(s, u, u.exp, now, ts);
    StoppedRefines(End(s, now, ts), Final(u, moves), u.exp, now);
    EmissionIsOrdered(u, now, moves);
    LeavesNoneBehindIff(u, now, moves);
    StrandedIff(End(s, now, ts), Final(u, moves), u.exp);
    if InOrderAt(u, now) {
      EmitsDuePrefix(u, now, moves);
      Rebase(End(s, now, ts), Final(u, moves), u.exp);
    }
  }

  // ---- Statements about the 16-bit buffer alone -----------------------------------------------

  /** What a buffer with nothing stranded stands for, with its own expected number as the origin. */
  ghost function Unwrapped(s: Jitter): State<Packet> {
    State(s.expected, map k | s.expected <= k < s.expected + 32768 && Wrap(k) in s.buf :: s.buf[Wrap(k)], s.stats.lost)
  }

  lemma UnwrappedTracks(s: Jitter)
    requires s.haveSeq && Inv(s) && NoneStranded(s)
    ensures Tracks(s, Unwrapped(s), s.expected) && NoneBehind(Unwrapped(s))
  {
    hide Wrap;
    hide SeqDistance;
    WrapSmall(s.expected);
    forall q | q in s.buf ensures Index(s.expected, q) in Unwrapped(s).buf {
      DistanceIsDifference(s.expected, Index(s.expected, q));
    }
  }

  lemma WrapSmall(q: U16)
    ensures Wrap(q) == q
  {
  }

  /** out is the whole of buf, each packet once, by increasing forward distance from cur. */
  ghost predicate SortedByDistance(cur: U16, buf: map<U16, Buffered<Packet>>, out: seq<Packet>) {
    && (forall i :: 0 <= i < |out| ==> out[i].seqNum in buf && buf[out[i].seqNum].p == out[i])
    && (forall q :: q in buf ==> buf[q].p in out)
    && (forall i, j :: 0 <= i < j < |out| ==> SeqDistance(cur, out[i].seqNum) < SeqDistance(cur, out[j].seqNum))
  }

  /** When everything buffered is due, Emit returns exactly the buffer sorted by forward distance, empties
      it, and adds the span it passed less the count to Lost. */
  lemma AllDueIsEmittedSorted(s: Jitter, now: int, ts: seq<Turn>)
    requires s.haveSeq && Inv(s) && NoneStranded(s) && EmitRun(s, now, ts)
    requires forall q :: q in s.buf ==> s.buf[q].due <= now
    ensures WholeBufferEmitted(s, End(s, now, ts), Out(s, now, ts))
  {
    hide Wrap;
    hide EmitRun;
    hide WholeBufferEmitted;
    UnwrappedTracks(s);
    AllDueTracked(s, Unwrapped(s), now, ts);
  }

  ghost predicate WholeBufferEmitted(s: Jitter, e: Jitter, out: seq<Packet>) {
    && e.buf == map[] && SortedByDistance(s.expected, s.buf, out)
    && e.stats.lost - s.stats.lost ==
         (if out == [] then 0 else SeqDistance(s.expected, out[|out| - 1].seqNum) + 1) - |out|
  }

  lemma AllDueTracked(s: Jitter, u: State<Packet>, now: int, ts: seq<Turn>)
    requires Tracks(s, u, u.exp) && NoneBehind(u) && EmitRun(s, now, ts)
    requires forall k :: k in u.buf ==> u.buf[k].due <= now
    ensures WholeBufferEmitted(s, End(s, now, ts), Out(s, now, ts))
  {
    hide NoneBehind;
    hide InOrderAt;
    hide SortedByDistance;
    hide Tracks;
    hide PacketsAt;
    hide SeqDistance;
    hide Emission;
    hide Increasing;
    hide End;
    hide Out;
    hide Played;
    hide Final;
    hide DuePrefix;
    hide NoneStranded;
    AllDueInOrder(u, now);
    var moves := EmitStrandsNothingIff(s, u, now, ts);
    AllDueEmptiesBuffer(u, now, moves);
    PlayedSorted(s, u, Played(u, moves), Out(s, now, ts));
    EmptyTracksEmpty(End(s, now, ts), Final(u, moves), Final(u, moves).exp);
    TracksLost(End(s, now, ts), Final(u, moves), u.exp);
    TracksLost(s, u, u.exp);
    PacketsSize(u, Played(u, moves));
  }

  lemma PacketsSize(u: State<Packet>, ks: seq<int>)
    requires forall i :: 0 <= i < |ks| ==> ks[i] in u.buf
    ensures |PacketsAt(u, ks)| == |ks|
  {
  }

  lemma TracksLost(s: Jitter, u: State<Packet>, base: int)
    requires Tracks(s, u, base)
    ensures s.stats.lost == u.lost
  {
  }

  lemma AllDueInOrder(u: State<Packet>, now: int)
    requires forall k :: k in u.buf ==> Due(u, now, k)
    ensures InOrderAt(u, now)
  {
  }

  lemma EmptyTracksEmpty(s: Jitter, u: State<Packet>, base: int)
    requires Tracks(s, u, base) && u.buf == map[]
    ensures s.buf == map[]
  {
  }

  lemma PlayedDistances(s: Jitter, u: State<Packet>, ks: seq<int>, out: seq<Packet>)
    requires Tracks(s, u, u.exp) && NoneBehind(u)
    requires (forall i :: 0 <= i < |ks| ==> ks[i] in u.buf) && out == PacketsAt(u, ks)
    ensures forall i :: 0 <= i < |out| ==>
                          && SeqDistance(s.expected, out[i].seqNum) == ks[i] - u.exp
                          && out[i].seqNum in s.buf && s.buf[out[i].seqNum].p == out[i]
  {
    hide Wrap;
    hide SeqDistance;
    forall i | 0 <= i < |out|
      ensures SeqDistance(s.expected, out[i].seqNum) == ks[i] - u.exp
      ensures out[i].seqNum in s.buf && s.buf[out[i].seqNum].p == out[i]
    {
      assert ks[i] in u.buf;
      DistanceIsDifference(u.exp, ks[i]);
    }
  }

  lemma TracksAt(s: Jitter, u: State<Packet>, base: int, q: U16)
    requires Tracks(s, u, base) && q in s.buf
    ensures Index(base, q) in u.buf && s.buf[q] == u.buf[Index(base, q)]
  {
    assert Wrap(Index(base, q)) == q;
  }

  lemma PlayedSorted(s: Jitter, u: State<Packet>, ks: seq<int>, out: seq<Packet>)
    requires Tracks(s, u, u.exp) && NoneBehind(u) && Increasing(ks) && (set k | k in ks) == u.buf.Keys
    requires (forall i :: 0 <= i < |ks| ==> ks[i] in u.buf) && out == PacketsAt(u, ks)
    ensures SortedByDistance(s.expected, s.buf, out)
    ensures forall i :: 0 <= i < |out| ==> SeqDistance(s.expected, out[i].seqNum) == ks[i] - u.exp
  {
    hide Tracks;
    hide Wrap;
    hide SeqDistance;
    PlayedDistances(s, u, ks, out);
    forall q | q in s.buf ensures s.buf[q].p in out {
      var k := Index(u.exp, q);
      TracksAt(s, u, u.exp, q);
      assert k in (set j | j in ks);
      var i :| 0 <= i < |ks| && ks[i] == k;
      assert out[i] == u.buf[k].p;
    }
  }

  /** At any time a complete Emit exists. */
  lemma {:induction false} EmitExists(s: Jitter, now: int) returns (ts: seq<Turn>)
    requires Inv(s)
    ensures EmitRun(s, now, ts)
    decreases |s.buf|, s.expected !in s.buf || now < s.buf[s.expected].due
  {
    ts := [];
    if !Stopped(s, now) {
      var order := Listing(s.buf.Keys);
      ScanPicksBuffered(s.buf, now, order);
      var t := if s.expected in s.buf then Play else GiveUp(order);
      assert CanTurn(s, now, t);
      TurnConserves(s, now, t);
      var rest := EmitExists(Turned(s, now, t), now);
      ts := [t] + rest;
      assert ts[1..] == rest;
    }
  }

  lemma {:induction false} Listing(qs: set<U16>) returns (order: seq<U16>)
    ensures forall q :: q in order <==> q in qs
  {
    order := [];
    if q :| q in qs {
      var rest := Listing(qs - {q});
      order := [q] + rest;
    }
  }

  /** No Emit at any time from the clock on strands a packet if and only if the buffered deadlines
      satisfy the gap-head condition. */
  lemma NothingStrandedForeverIff(s: Jitter, u: State<Packet>, clock: int)
    requires Tracks(s, u, u.exp) && NoneBehind(u) && Inv(s)
    ensures GapHeadsOrdered(u, clock)
            <==> forall now, ts :: clock <= now && EmitRun(s, now, ts) ==> NoneStranded(End(s, now, ts))
  {
    hide Tracks;
    hide NoneBehind;
    hide GapHeadsOrdered;
    hide InOrderAt;
    GapHeadsOrderedIff(u, clock);
    forall now, ts | EmitRun(s, now, ts) ensures NoneStranded(End(s, now, ts)) <==> InOrderAt(u, now) {
      var moves := EmitStrandsNothingIff(s, u, now, ts);
    }
    if !GapHeadsOrdered(u, clock) {
      var now :| clock <= now && !InOrderAt(u, now);
      var ts := EmitExists(s, now);
      assert EmitRun(s, now, ts) && !NoneStranded(End(s, now, ts));
    }
  }
}

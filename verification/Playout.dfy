/** Playout over unbounded packet indices: the order the jitter buffer is meant to keep,
    stated without any 16-bit arithmetic. Module JitterRefinement proves that
    server/internal/rtp/jitter.go follows it. */
module Playout {

  /** A packet waiting for its playout deadline. */
  datatype Buffered<+P> = Buffered(p: P, due: int)

  /** exp is the next index to play; indices below it are gone. */
  datatype State<+P> = State(exp: int, buf: map<int, Buffered<P>>, lost: int)

  /** One turn of the Emit loop: play the expected packet, or give up on a gap. */
  datatype Move = Deliver | Skip(to: int)

  ghost predicate Due<P>(s: State<P>, now: int, k: int) {
    k in s.buf && s.buf[k].due <= now
  }

  ghost predicate Waiting<P>(s: State<P>, now: int, k: int) {
    k in s.buf && now < s.buf[k].due
  }

  ghost predicate IsLeastDue<P>(s: State<P>, now: int, k: int) {
    Due(s, now, k) && forall j :: Due(s, now, j) ==> k <= j
  }

  ghost predicate CanMove<P>(s: State<P>, now: int, m: Move) {
    match m
    case Deliver => Due(s, now, s.exp)
    case Skip(to) => s.exp !in s.buf && IsLeastDue(s, now, to)
  }

  function Moved<P>(s: State<P>, m: Move): State<P> {
    match m
    case Deliver => s.(exp := s.exp + 1, buf := s.buf - {s.exp})
    case Skip(to) => s.(exp := to, lost := s.lost + to - s.exp)
  }

  /** The loop stops at a packet that is not due yet, or when nothing at all is due. */
  ghost predicate Halted<P>(s: State<P>, now: int) {
    if s.exp in s.buf then Waiting(s, now, s.exp) else forall k :: !Due(s, now, k)
  }

  ghost predicate Legal<P>(s: State<P>, now: int, moves: seq<Move>)
    decreases moves
  {
    moves == [] || (CanMove(s, now, moves[0]) && Legal(Moved(s, moves[0]), now, moves[1..]))
  }

  function Final<P>(s: State<P>, moves: seq<Move>): State<P>
    decreases moves
  {
    if moves == [] then s else Final(Moved(s, moves[0]), moves[1..])
  }

  /** The indices played, in playing order. */
  function Played<P>(s: State<P>, moves: seq<Move>): seq<int>
    decreases moves
  {
    if moves == [] then []
    else (if moves[0].Deliver? then [s.exp] else []) + Played(Moved(s, moves[0]), moves[1..])
  }

  ghost predicate Increasing(ks: seq<int>) {
    forall i, j :: 0 <= i < j < |ks| ==> ks[i] < ks[j]
  }

  lemma IncreasingConcat(xs: seq<int>, ys: seq<int>, mid: int)
    requires Increasing(xs) && Increasing(ys)
    requires (forall i :: 0 <= i < |xs| ==> xs[i] < mid) && (forall j :: 0 <= j < |ys| ==> mid <= ys[j])
    ensures Increasing(xs + ys)
  {
  }

  /** A complete Emit at time now. */
  ghost predicate Emission<P>(s: State<P>, now: int, moves: seq<Move>) {
    Legal(s, now, moves) && Halted(Final(s, moves), now)
  }

  /** Nothing is left in the buffer below the playing position. */
  ghost predicate NoneBehind<P>(s: State<P>) {
    forall k :: k in s.buf ==> s.exp <= k
  }

  ghost predicate NoneDueBehind<P>(s: State<P>, now: int) {
    forall k :: Due(s, now, k) ==> s.exp <= k
  }

  // ---- What every emission does ----------------------------------------------------

  lemma MoveKeepsNoneDueBehind<P>(s: State<P>, now: int, m: Move)
    requires NoneDueBehind(s, now) && CanMove(s, now, m)
    ensures NoneDueBehind(Moved(s, m), now) && s.exp <= Moved(s, m).exp
    ensures forall k :: Due(Moved(s, m), now, k) ==> Due(s, now, k)
  {
    var t := Moved(s, m);
    forall k | Due(t, now, k) ensures Due(s, now, k) && t.exp <= k {
      assert Due(s, now, k);
    }
    assert m.Skip? ==> Due(s, now, m.to);
  }

  /** Every emission plays due packets only, in strictly increasing order. */
  lemma {:induction false} EmissionIsOrdered<P>(s: State<P>, now: int, moves: seq<Move>)
    requires NoneDueBehind(s, now) && Legal(s, now, moves)
    ensures Increasing(Played(s, moves)) && s.exp <= Final(s, moves).exp
    ensures forall k :: k in Played(s, moves) ==> Due(s, now, k) && s.exp <= k < Final(s, moves).exp
    ensures NoneDueBehind(Final(s, moves), now)
    decreases moves
  {
    if moves != [] {
      var s1 := Moved(s, moves[0]);
      var rest := Played(s1, moves[1..]);
      MoveKeepsNoneDueBehind(s, now, moves[0]);
      EmissionIsOrdered(s1, now, moves[1..]);
      assert forall j :: 0 <= j < |rest| ==> rest[j] in rest;
      assert Played(s, moves) == (if moves[0].Deliver? then [s.exp] else []) + rest;
    }
  }

  /** Every emission removes exactly what it played, and counts as lost exactly the indices
      it passed without playing. */
  lemma {:induction false} EmissionAccounts<P>(s: State<P>, now: int, moves: seq<Move>)
    requires Legal(s, now, moves)
    ensures var ks, t := Played(s, moves), Final(s, moves);
            && t.buf == s.buf - (set k | k in ks)
            && t.lost == s.lost + (t.exp - s.exp) - |ks|
    decreases moves
  {
    if moves != [] {
      var s1 := Moved(s, moves[0]);
      var rest := Played(s1, moves[1..]);
      EmissionAccounts(s1, now, moves[1..]);
      var head := if moves[0].Deliver? then [s.exp] else [];
      assert Played(s, moves) == head + rest;
      assert (set k | k in head + rest) == (set k | k in head) + (set k | k in rest);
      assert s1.buf == s.buf - (set k | k in head);
    }
  }

  /** A halted emission that played something stopped right after its last packet; one that
      played nothing did not move. */
  lemma {:induction false} StopsAfterLast<P>(s: State<P>, now: int, moves: seq<Move>)
    requires Emission(s, now, moves)
    ensures var ks, t := Played(s, moves), Final(s, moves);
            t.exp == (if ks == [] then s.exp else ks[|ks| - 1] + 1)
    decreases moves
  {
    if moves != [] {
      var s1 := Moved(s, moves[0]);
      StopsAfterLast(s1, now, moves[1..]);
      if moves[0].Skip? {
        assert Due(s1, now, s1.exp);
        assert moves[1..] != [];
        assert moves[1].Deliver?;
      }
    }
  }

  // ---- Reported losses ----------------------------------------------------------------

  /** The indices reported lost when at most `cap` are reported for one gap. */
  function Reported<P>(s: State<P>, moves: seq<Move>, cap: nat): seq<int>
    decreases moves
  {
    if moves == [] then []
    else
      (if moves[0].Skip? then Gap(s.exp, moves[0].to, cap) else []) + Reported(Moved(s, moves[0]), moves[1..], cap)
  }

  function Gap(a: int, b: int, cap: nat): (r: seq<int>)
    ensures |r| <= cap && (a <= b ==> |r| <= b - a && (b - a <= cap ==> |r| == b - a))
    ensures forall i :: 0 <= i < |r| ==> r[i] == a + i
  {
    seq(if b < a then 0 else if b - a > cap then cap else b - a, i => a + i)
  }

  /** Only indices that were passed and not played are reported, each once and in order; all
      of them are when the whole Emit advances by no more than the cap. */
  lemma {:induction false} ReportedAreLost<P>(s: State<P>, now: int, moves: seq<Move>, cap: nat)
    requires NoneDueBehind(s, now) && Legal(s, now, moves)
    ensures var rs, t := Reported(s, moves, cap), Final(s, moves);
            && Increasing(rs)
            && (forall i :: 0 <= i < |rs| ==> s.exp <= rs[i] < t.exp && rs[i] !in Played(s, moves))
            && |rs| <= t.lost - s.lost
            && (t.exp - s.exp <= cap ==> |rs| == t.lost - s.lost)
    decreases moves
  {
    if moves != [] {
      var s1 := Moved(s, moves[0]);
      MoveKeepsNoneDueBehind(s, now, moves[0]);
      EmissionIsOrdered(s1, now, moves[1..]);
      ReportedAreLost(s1, now, moves[1..], cap);
      var head := if moves[0].Skip? then Gap(s.exp, moves[0].to, cap) else [];
      var rest, played := Reported(s1, moves[1..], cap), Played(s1, moves[1..]);
      IncreasingConcat(head, rest, s1.exp);
      assert Played(s, moves) == (if moves[0].Deliver? then [s.exp] else []) + played;
    }
  }

  /** k is among the first cap indices from the start or from behind a played one. */
  ghost predicate NearStart(start: int, played: seq<int>, cap: nat, k: int) {
    k - cap < start <= k || exists p :: p in played && k - cap <= p < k
  }

  /** Exactly which losses are reported: in each gap the first cap. */
  lemma {:induction false} ReportedIff<P>(s: State<P>, now: int, moves: seq<Move>, cap: nat, k: int)
    requires NoneDueBehind(s, now) && Legal(s, now, moves)
    ensures k in Reported(s, moves, cap)
            <==> s.exp <= k < Final(s, moves).exp && k !in Played(s, moves)
                 && NearStart(s.exp, Played(s, moves), cap, k)
    decreases moves
  {
    if moves != [] {
      var m, s1 := moves[0], Moved(s, moves[0]);
      var rest := Played(s1, moves[1..]);
      MoveKeepsNoneDueBehind(s, now, m);
      EmissionIsOrdered(s1, now, moves[1..]);
      ReportedIff(s1, now, moves[1..], cap, k);
      if m.Deliver? {
        if k != s.exp { DeliverStart(s.exp, rest, cap, k); }
      } else {
        assert Due(s, now, m.to) && s.exp < m.to;
        GapHas(s.exp, m.to, cap, k);
        SkipStart(s.exp, m.to, rest, cap, k);
        assert moves[1..] != [] ==> moves[1].Deliver?;
        assert k in Reported(s, moves, cap) <==> k in Gap(s.exp, m.to, cap) || k in Reported(s1, moves[1..], cap);
        assert Played(s, moves) == rest;
      }
    }
  }

  lemma GapHas(a: int, b: int, cap: nat, k: int)
    requires a <= b
    ensures k in Gap(a, b, cap) <==> a <= k < b && k - cap < a
  {
    if a <= k < b && k - cap < a {
      assert Gap(a, b, cap)[k - a] == k;
    }
  }

  lemma DeliverStart(exp: int, rest: seq<int>, cap: nat, k: int)
    requires exp != k && forall p :: p in rest ==> exp < p
    ensures NearStart(exp, [exp] + rest, cap, k) && exp <= k <==> NearStart(exp + 1, rest, cap, k) && exp <= k
  {
    assert exp in [exp] + rest && forall p :: p in [exp] + rest <==> p == exp || p in rest;
  }

  lemma SkipStart(exp: int, to: int, rest: seq<int>, cap: nat, k: int)
    requires exp < to && forall i :: i in rest ==> to <= i
    ensures k < to ==> (NearStart(exp, rest, cap, k) <==> k - cap < exp <= k)
    ensures to < k && to in rest ==> (NearStart(exp, rest, cap, k) <==> NearStart(to, rest, cap, k))
  {
  }

  // ---- When an emission leaves nothing behind ---------------------------------------

  /** a is the first packet that is not due, it stands behind a gap, and a later p is due:
      giving up on the gap will jump over a. */
  ghost predicate Overtaken<P>(s: State<P>, now: int, a: int, p: int) {
    && Waiting(s, now, a) && s.exp < a && a - 1 !in s.buf
    && (forall c :: c in s.buf && c < a ==> Due(s, now, c))
    && a < p && Due(s, now, p)
  }

  ghost predicate InOrderAt<P>(s: State<P>, now: int) {
    forall a, p :: !Overtaken(s, now, a, p)
  }

  lemma {:induction false} Smallest(ks: set<int>, w: int) returns (a: int)
    requires w in ks
    ensures a in ks && forall k :: k in ks ==> a <= k
  {
    a := w;
    if k :| k in ks && k < w {
      a := Smallest(ks - {w}, k);
      assert forall j :: j in ks ==> j == w || j in ks - {w};
    }
  }

  /** One move of an in-order state leaves nothing behind and stays in order. */
  lemma MoveKeepsOrder<P>(s: State<P>, now: int, m: Move)
    requires NoneBehind(s) && InOrderAt(s, now) && CanMove(s, now, m)
    ensures NoneBehind(Moved(s, m)) && InOrderAt(Moved(s, m), now)
  {
    var t := Moved(s, m);
    if m.Skip? {
      var to := m.to;
      var a := Smallest(s.buf.Keys, to);
      assert Due(s, now, a) ==> to <= a;
      assert a < to ==> Overtaken(s, now, a, to);
    }
    forall a, p ensures !Overtaken(t, now, a, p) {
      if Overtaken(t, now, a, p) {
        forall c | c in s.buf && c < a ensures Due(s, now, c) {
          assert c in t.buf ==> Due(t, now, c);
        }
        assert Overtaken(s, now, a, p);
      }
    }
  }

  lemma {:induction false} OrderLeavesNoneBehind<P>(s: State<P>, now: int, moves: seq<Move>)
    requires NoneBehind(s) && InOrderAt(s, now) && Legal(s, now, moves)
    ensures NoneBehind(Final(s, moves))
    decreases moves
  {
    if moves != [] {
      MoveKeepsOrder(s, now, moves[0]);
      OrderLeavesNoneBehind(Moved(s, moves[0]), now, moves[1..]);
    }
  }

  /** Once behind, a packet that is not due stays behind for the rest of the emission. */
  lemma {:induction false} StaysBehind<P>(s: State<P>, now: int, moves: seq<Move>, a: int)
    requires NoneDueBehind(s, now) && Legal(s, now, moves) && Waiting(s, now, a) && a < s.exp
    ensures !NoneBehind(Final(s, moves))
  {
    EmissionIsOrdered(s, now, moves);
    EmissionAccounts(s, now, moves);
    assert a in Final(s, moves).buf;
  }

  lemma {:induction false} OvertakenIsLeftBehind<P>(s: State<P>, now: int, moves: seq<Move>, a: int, p: int)
    requires NoneBehind(s) && Overtaken(s, now, a, p) && Emission(s, now, moves)
    ensures !NoneBehind(Final(s, moves))
    decreases moves
  {
    assert moves != [];
    var m, s1 := moves[0], Moved(s, moves[0]);
    if m.Skip? && a < m.to {
      assert Waiting(s1, now, a);
      forall k | Due(s1, now, k) ensures s1.exp <= k {
        assert Due(s, now, k);
      }
      StaysBehind(s1, now, moves[1..], a);
    } else {
      assert Waiting(s1, now, a) && Due(s1, now, p);
      forall c | c in s1.buf && c < a ensures Due(s1, now, c) {
        assert Due(s, now, c);
      }
      assert NoneBehind(s1);
      assert Overtaken(s1, now, a, p);
      OvertakenIsLeftBehind(s1, now, moves[1..], a, p);
    }
  }

  /** Exactly when an Emit at time now leaves no buffered packet behind its position. */
  lemma LeavesNoneBehindIff<P>(s: State<P>, now: int, moves: seq<Move>)
    requires NoneBehind(s) && Emission(s, now, moves)
    ensures NoneBehind(Final(s, moves)) <==> InOrderAt(s, now)
  {
    if InOrderAt(s, now) {
      OrderLeavesNoneBehind(s, now, moves);
    } else {
      var a, p :| Overtaken(s, now, a, p);
      OvertakenIsLeftBehind(s, now, moves, a, p);
    }
  }

  /** The longest run of buffered packets, from the front, that are all due. */
  ghost function DuePrefix<P>(s: State<P>, now: int): set<int> {
    set k | k in s.buf && forall j :: j in s.buf && j <= k ==> Due(s, now, j)
  }

  /** What an in-order Emit plays, in closed form: exactly the due prefix of the buffer,
      sorted. */
  lemma EmitsDuePrefix<P>(s: State<P>, now: int, moves: seq<Move>)
    requires NoneBehind(s) && InOrderAt(s, now) && Emission(s, now, moves)
    ensures Increasing(Played(s, moves))
    ensures (set k | k in Played(s, moves)) == DuePrefix(s, now)
  {
    var ks, t := Played(s, moves), Final(s, moves);
    EmissionIsOrdered(s, now, moves);
    EmissionAccounts(s, now, moves);
    OrderLeavesNoneBehind(s, now, moves);
    forall k | k in ks ensures k in DuePrefix(s, now) {
      forall j | j in s.buf && j <= k ensures Due(s, now, j) {
        assert j in ks || j in t.buf;
      }
    }
    forall k | k in DuePrefix(s, now) ensures k in ks {
      assert Due(s, now, k) && (k in ks || Due(t, now, k));
      assert t.exp in t.buf && t.exp <= k ==> Due(s, now, t.exp);
    }
  }

  /** When everything buffered is due, Emit plays the whole buffer in order, empties it and
      counts the gaps: the span it passed less the packets it played. */
  lemma AllDueEmptiesBuffer<P>(s: State<P>, now: int, moves: seq<Move>)
    requires NoneBehind(s) && Emission(s, now, moves)
    requires forall k :: k in s.buf ==> Due(s, now, k)
    ensures var ks, t := Played(s, moves), Final(s, moves);
            && Increasing(ks) && (set k | k in ks) == s.buf.Keys && t.buf == map[]
            && t.lost - s.lost == (if ks == [] then 0 else ks[|ks| - 1] + 1 - s.exp) - |ks|
  {
    EmissionIsOrdered(s, now, moves);
    EmissionAccounts(s, now, moves);
    EmitsDuePrefix(s, now, moves);
    StopsAfterLast(s, now, moves);
    assert DuePrefix(s, now) == s.buf.Keys;
  }

  // ---- Order at every future instant -------------------------------------------------

  /** A packet right behind a gap, still waiting at the clock, is not due after anything
      that follows it, unless something before it is due no earlier. */
  ghost predicate HeadOk<P>(s: State<P>, clock: int, a: int)
    requires a in s.buf
  {
    s.exp < a && a - 1 !in s.buf && Waiting(s, clock, a) ==>
      forall p :: p in s.buf && a < p ==>
        || s.buf[a].due <= s.buf[p].due
        || exists c :: c in s.buf && c < a && s.buf[a].due <= s.buf[c].due
  }

  ghost predicate GapHeadsOrdered<P>(s: State<P>, clock: int) {
    forall a :: a in s.buf ==> HeadOk(s, clock, a)
  }

  lemma GapHeadsOrderedIff<P>(s: State<P>, clock: int)
    ensures GapHeadsOrdered(s, clock) <==> forall now :: clock <= now ==> InOrderAt(s, now)
  {
    if GapHeadsOrdered(s, clock) {
      forall now, a, p | clock <= now ensures !Overtaken(s, now, a, p) {
        assert a in s.buf ==> HeadOk(s, clock, a);
      }
    } else {
      var a :| a in s.buf && !HeadOk(s, clock, a);
      var p :| p in s.buf && a < p && s.buf[p].due < s.buf[a].due
               && !exists c :: c in s.buf && c < a && s.buf[a].due <= s.buf[c].due;
      var now := s.buf[a].due - 1;
      forall c | c in s.buf && c < a ensures Due(s, now, c) {
      }
      assert Overtaken(s, now, a, p);
      assert clock <= now && !InOrderAt(s, now);
    }
  }

  /** At any time there is a complete emission from any state. */
  lemma {:induction false} EmissionExists<P>(s: State<P>, now: int) returns (moves: seq<Move>)
    ensures Emission(s, now, moves)
    decreases |s.buf|, s.exp !in s.buf
  {
    moves := [];
    if Due(s, now, s.exp) {
      var rest := EmissionExists(Moved(s, Deliver), now);
      moves := [Deliver] + rest;
      assert moves[1..] == rest;
    } else if s.exp !in s.buf {
      if w :| Due(s, now, w) {
        var due := set k | k in s.buf && Due(s, now, k);
        var a := Smallest(due, w);
        assert forall j :: Due(s, now, j) ==> j in due;
        assert IsLeastDue(s, now, a);
        var rest := EmissionExists(Moved(s, Skip(a)), now);
        moves := [Skip(a)] + rest;
        assert moves[1..] == rest;
      }
    }
  }

  /** Exactly when no emission, at any time from the clock on, leaves a packet behind: a
      condition on the deadlines in the buffer alone. */
  lemma OrderedForeverIff<P>(s: State<P>, clock: int)
    requires NoneBehind(s)
    ensures GapHeadsOrdered(s, clock)
            <==> forall now, moves :: clock <= now && Emission(s, now, moves) ==> NoneBehind(Final(s, moves))
  {
    GapHeadsOrderedIff(s, clock);
    forall now, moves | Emission(s, now, moves) ensures NoneBehind(Final(s, moves)) <==> InOrderAt(s, now) {
      LeavesNoneBehindIff(s, now, moves);
    }
    if !GapHeadsOrdered(s, clock) {
      var now :| clock <= now && !InOrderAt(s, now);
      var moves := EmissionExists(s, now);
      assert Emission(s, now, moves) && !NoneBehind(Final(s, moves));
    }
  }

  /** An Emit keeps the condition for every later instant. */
  lemma {:induction false} EmitKeepsGapHeads<P>(s: State<P>, clock: int, now: int, moves: seq<Move>)
    requires clock <= now && NoneBehind(s) && GapHeadsOrdered(s, clock) && Emission(s, now, moves)
    ensures NoneBehind(Final(s, moves)) && GapHeadsOrdered(Final(s, moves), now)
  {
    GapHeadsOrderedIff(s, clock);
    EmissionIsOrdered(s, now, moves);
    EmissionAccounts(s, now, moves);
    OrderLeavesNoneBehind(s, now, moves);
    StopsAfterLast(s, now, moves);
    var t := Final(s, moves);
    forall a | a in t.buf ensures HeadOk(t, now, a) {
      assert HeadOk(s, clock, a);
      if t.exp < a && a - 1 !in t.buf && Waiting(t, now, a) {
        assert a - 1 in s.buf ==> a - 1 in Played(s, moves);
        forall p | p in t.buf && a < p && t.buf[p].due < t.buf[a].due
          ensures exists c :: c in t.buf && c < a && t.buf[a].due <= t.buf[c].due
        {
          assert p in s.buf;
          var c :| c in s.buf && c < a && s.buf[a].due <= s.buf[c].due;
          assert c in Played(s, moves) ==> Due(s, now, c);
          assert c in t.buf;
        }
      }
    }
  }

  // ---- Accepting an arrival ----------------------------------------------------------

  function Accepted<P>(s: State<P>, k: int, item: Buffered<P>): State<P> {
    s.(buf := s.buf[k := item])
  }

  /** With receipt times that never go back, accepting k keeps the condition exactly when k
      itself is not a gap head whose deadline comes after that of a later packet. In
      particular it does when k is the expected packet, follows a buffered one, or is the
      newest. */
  lemma AcceptKeepsGapHeadsIff<P>(s: State<P>, clock: int, k: int, item: Buffered<P>)
    requires GapHeadsOrdered(s, clock) && k !in s.buf && s.exp <= k
    requires forall j :: j in s.buf ==> s.buf[j].due <= item.due
    ensures GapHeadsOrdered(Accepted(s, k, item), clock) <==> HeadOk(Accepted(s, k, item), clock, k)
    ensures k == s.exp || k - 1 in s.buf || (forall j :: j in s.buf ==> j < k) ==>
              HeadOk(Accepted(s, k, item), clock, k)
  {
    var t := Accepted(s, k, item);
    if HeadOk(t, clock, k) {
      forall a | a in t.buf ensures HeadOk(t, clock, a) {
        if a != k && s.exp < a && a - 1 !in t.buf && Waiting(t, clock, a) {
          assert HeadOk(s, clock, a);
          forall p | p in t.buf && a < p && t.buf[p].due < t.buf[a].due
            ensures exists c :: c in t.buf && c < a && t.buf[a].due <= t.buf[c].due
          {
            assert p in s.buf;
            var c :| c in s.buf && c < a && s.buf[a].due <= s.buf[c].due;
            assert c in t.buf;
          }
        }
      }
    }
  }

  // ---- Sorted sets ----------------------------------------------------------------------

  lemma SmallestExists(ks: set<int>, w: int)
    requires w in ks
    ensures exists a :: a in ks && forall k :: k in ks ==> a <= k
  {
    var a := Smallest(ks, w);
  }

  /** The elements of ks in increasing order. */
  ghost function Sorted(ks: set<int>): seq<int> {
    if w :| w in ks then
      SmallestExists(ks, w);
      var a :| a in ks && forall k :: k in ks ==> a <= k;
      [a] + Sorted(ks - {a})
    else []
  }

  /** An increasing sequence is determined by its elements. */
  lemma {:induction false} IncreasingIsSorted(ks: seq<int>)
    requires Increasing(ks)
    ensures ks == Sorted(set k | k in ks)
    decreases |ks|
  {
    var all := set k | k in ks;
    if ks != [] {
      assert ks[0] in all;
      assert forall k :: k in all ==> ks[0] <= k;
      assert all - {ks[0]} == set k | k in ks[1..];
      IncreasingIsSorted(ks[1..]);
    }
  }

  /** The indices a, ..., b - 1. */
  ghost function Range(a: int, b: int): (r: set<int>)
    ensures forall i :: i in r <==> a <= i < b
    ensures |r| == if a <= b then b - a else 0
    decreases b - a
  {
    if a < b then Range(a, b - 1) + {b - 1} else {}
  }

  lemma {:induction false} IncreasingSize(ks: seq<int>)
    requires Increasing(ks)
    ensures |set k | k in ks| == |ks|
    decreases |ks|
  {
    if ks != [] {
      IncreasingSize(ks[1..]);
      assert (set k | k in ks) == {ks[0]} + set k | k in ks[1..];
    }
  }

  /** How many indices of [a, b) an increasing selection leaves out. */
  lemma LeftOutSize(ks: seq<int>, a: int, b: int)
    requires a <= b && Increasing(ks) && forall k :: k in ks ==> a <= k < b
    ensures |Range(a, b) - set k | k in ks| == b - a - |ks|
  {
    IncreasingSize(ks);
    var chosen := set k | k in ks;
    assert chosen <= Range(a, b);
    assert |Range(a, b) - chosen| == |Range(a, b)| - |chosen|;
  }

  // ---- An Emit in closed form -------------------------------------------------------------

  /** Play the due prefix of the buffer: the state afterwards and the indices played. */
  ghost function PlayPrefix<P>(s: State<P>, now: int): (State<P>, seq<int>) {
    var ks := Sorted(DuePrefix(s, now));
    var exp := if ks == [] then s.exp else ks[|ks| - 1] + 1;
    (State(exp, s.buf - DuePrefix(s, now), s.lost + exp - s.exp - |ks|), ks)
  }

  /** From a state with nothing behind and deadlines in order, every Emit is PlayPrefix. */
  lemma EmissionIsPlayPrefix<P>(s: State<P>, now: int, moves: seq<Move>)
    requires NoneBehind(s) && InOrderAt(s, now) && Emission(s, now, moves)
    ensures PlayPrefix(s, now) == (Final(s, moves), Played(s, moves))
  {
    EmitsDuePrefix(s, now, moves);
    EmissionAccounts(s, now, moves);
    StopsAfterLast(s, now, moves);
    IncreasingIsSorted(Played(s, moves));
  }

  /** What PlayPrefix does to a state with nothing behind. */
  ghost predicate Advances<P>(s: State<P>, now: int, t: State<P>, ks: seq<int>) {
    && Increasing(ks) && s.exp <= t.exp && NoneBehind(t)
    && (forall i :: 0 <= i < |ks| ==> Due(s, now, ks[i]) && s.exp <= ks[i] < t.exp)
    && t.buf == s.buf - (set k | k in ks)
    && t.lost == s.lost + (t.exp - s.exp) - |ks|
    && t.exp == (if ks == [] then s.exp else ks[|ks| - 1] + 1)
  }

  /** PlayPrefix keeps the condition too. */
  lemma PlayPrefixKeepsGapHeads<P>(s: State<P>, clock: int, now: int)
    requires clock <= now && NoneBehind(s) && GapHeadsOrdered(s, clock)
    ensures InOrderAt(s, now)
    ensures NoneBehind(PlayPrefix(s, now).0) && GapHeadsOrdered(PlayPrefix(s, now).0, now)
  {
    hide PlayPrefix;
    GapHeadsOrderedIff(s, clock);
    var moves := EmissionExists(s, now);
    EmissionIsPlayPrefix(s, now, moves);
    EmitKeepsGapHeads(s, clock, now, moves);
  }

  lemma EmissionAdvances<P>(s: State<P>, now: int, moves: seq<Move>)
    requires NoneBehind(s) && InOrderAt(s, now) && Emission(s, now, moves)
    ensures Advances(s, now, Final(s, moves), Played(s, moves))
  {
    EmissionIsOrdered(s, now, moves);
    EmissionAccounts(s, now, moves);
    OrderLeavesNoneBehind(s, now, moves);
    StopsAfterLast(s, now, moves);
    var ks := Played(s, moves);
    assert forall i :: 0 <= i < |ks| ==> ks[i] in ks;
  }
}

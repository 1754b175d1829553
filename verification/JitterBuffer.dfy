/** server/internal/rtp/jitter.go: the mutable buffer, proved against JitterSpec. */
module JitterBuffer {
  import opened SerialNumber
  import opened Wrappers
  import opened Playout
  import opened JitterSpec

  class JitterBuffer {
    const target: int  // playout delay, in the clock's units
    const hasHook: bool
    var buf: map<U16, Buffered<Packet>>
    var expected: U16
    var haveSeq: bool
    var maxSeen: U16
    var stats: Stats
    var hooked: seq<U16>  // the arguments of the loss hook's calls so far

    ghost function Abs(): Jitter
      reads this
    {
      Jitter(haveSeq, expected, maxSeen, buf, stats)
    }

    constructor (target: int, hasHook: bool)
      ensures this.target == target && this.hasHook == hasHook
      ensures Abs() == NEW && Inv(Abs()) && hooked == []
    {
      this.target, this.hasHook := target, hasHook;
      buf, expected, haveSeq, maxSeen := map[], 0, false, 0;
      stats, hooked := Stats(0, 0, 0, 0, 0), [];
    }

    method Push(p: Packet, recv: int)
      requires Inv(Abs())
      modifies this
      ensures Abs() == JitterSpec.Push(old(Abs()), p, recv + target)
      ensures Inv(Abs()) && hooked == old(hooked)
    {
      stats := stats.(received := stats.received + 1);
      if !haveSeq {
        expected := p.seqNum;
        maxSeen := p.seqNum;
        haveSeq := true;
        buf := buf[p.seqNum := Buffered(p, recv + target)];
        return;
      }
      if p.seqNum in buf {
        stats := stats.(duplicate := stats.duplicate + 1);
        return;
      }
      if SeqBefore(p.seqNum, expected) {
        stats := stats.(late := stats.late + 1);
        return;
      }
      if SeqBefore(p.seqNum, maxSeen) {
        stats := stats.(reordered := stats.reordered + 1);
      } else {
        maxSeen := p.seqNum;
      }
      buf := buf[p.seqNum := Buffered(p, recv + target)];
    }

    /** The map is visited in an arbitrary order, reported in the ghost result. */
    method NextPresentDue(now: int) returns (best: Option<Buffered<Packet>>, ghost order: seq<U16>)
      ensures Enumerates(order, buf) && best == ScanDue(buf, now, order)
    {
      best, order := None, [];
      var rest := buf.Keys;
      while rest != {}
        invariant rest <= buf.Keys
        invariant forall q :: q in buf <==> q in order || q in rest
        invariant best == ScanDue(buf, now, order)
        decreases rest
      {
        var q :| q in rest;
        var b := buf[q];
        assert (order + [q])[..|order|] == order;
        if b.due <= now {
          if best.None? || SeqBefore(b.p.seqNum, best.value.p.seqNum) {
            best := Some(b);
          }
        }
        order, rest := order + [q], rest - {q};
      }
    }

    /** The hook calls for one gap of `missing` packets that starts at `first`. */
    method ReportGap(first: U16, missing: nat)
      modifies `hooked
      ensures hooked == old(hooked) + (if hasHook then GapCalls(first, missing) else [])
    {
      if hasHook {
        var cur, calls := first, missing;
        if calls > MAX_LOSS_HOOK_CALLS {
          calls := MAX_LOSS_HOOK_CALLS;
        }
        for i := 0 to calls
          invariant hooked == old(hooked) + GapCalls(first, missing)[..i]
          invariant cur == Wrap(first + i)
        {
          hooked := hooked + [cur];
          cur := SeqNext(cur);
        }
      }
    }

    /** One iteration of the Emit loop; t is None when the loop breaks. */
    method EmitTurn(now: int) returns (played: seq<Packet>, ghost t: Option<Turn>, stop: bool)
      requires Inv(Abs())
      modifies this
      ensures stop <==> t.None?
      ensures stop ==> Stopped(Abs(), now) && Abs() == old(Abs()) && played == [] && hooked == old(hooked)
      ensures !stop ==>
        var s := old(Abs());
        && CanTurn(s, now, t.value) && Abs() == Turned(s, now, t.value) && Inv(Abs())
        && (|buf| < |s.buf| || (buf == s.buf && s.expected !in buf && expected in buf))
        && played == Out(s, now, [t.value])
        && hooked == old(hooked) + (if hasHook then Hooks(s, now, [t.value]) else [])
    {
      var cur := expected;
      if cur in buf {
        var pkt := buf[cur];
        if pkt.due > now {
          return [], None, true;
        }
        buf := buf - {cur};
        expected := SeqNext(cur);
        TurnMeasure(old(Abs()), now, Play);
        return [pkt.p], Some(Play), false;
      }
      var next, order := NextPresentDue(now);
      ScanPicksBuffered(buf, now, order);
      if next.None? {
        return [], None, true;
      }
      var missing := SeqDistance(cur, next.value.p.seqNum);
      stats := stats.(lost := stats.lost + missing);
      ReportGap(cur, missing);
      expected := next.value.p.seqNum;
      TurnMeasure(old(Abs()), now, GiveUp(order));
      return [], Some(GiveUp(order)), false;
    }

    /** The turns ts lead from the old state to the new one with this output; the loss hook is
        called with hooks. */
    method Emit(now: int) returns (out: seq<Packet>, ghost ts: seq<Turn>, ghost hooks: seq<U16>)
      requires Inv(Abs())
      modifies this
      ensures Trace(old(Abs()), now, ts, Abs(), out, hooks) && Stopped(Abs(), now)
      ensures hooked == old(hooked) + (if hasHook then hooks else [])
      ensures Inv(Abs())
    {
      hide Inv;
      hide Trace;
      hide Stopped;
      hide CanTurn;
      hide Turned;
      hide Hooks;
      hide Out;
      out, ts, hooks := [], [], [];
      ghost var s0 := Abs();
      TraceStart(s0, now);
      while true
        invariant Trace(s0, now, ts, Abs(), out, hooks) && Inv(Abs())
        invariant hooked == old(hooked) + (if hasHook then hooks else [])
        decreases |buf|, if expected in buf then 0 else 1
      {
        ghost var s := Abs();
        var played, t, stop := EmitTurn(now);
        if stop {
          break;
        }
        TraceSnoc(s0, now, ts, s, out, hooks, t.value);
        out := out + played;
        ts, hooks := ts + [t.value], hooks + Hooks(s, now, [t.value]);
      }
    }
  }
}

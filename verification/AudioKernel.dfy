/** The fixed-point kernel of client/components/opus_encoder/opus_encoder_task.c: the DC
    blocker, the automatic gain control and the narrowing to 16 bits. Integers are unbounded;
    conversions that may truncate are written out, and C's arithmetic right shift is floor
    division. */
module AudioKernel {

  const MAX_CH := 2
  const DC_BLOCK_R_Q15 := 32735
  const AGC_TARGET_PEAK := 6000
  const AGC_G_MIN := 256
  const AGC_G_MAX := 20000
  const AGC_NOISE_FLOOR := 30000
  const AGC_ATTACK_NUM := 160
  const AGC_RELEASE_NUM := 8

  /** The gain bound that runs actually respect. */
  const AGC_G_REACHED := 13107

  function ToInt32(n: int): int {
    (n + 0x8000_0000) % 0x1_0000_0000 - 0x8000_0000
  }

  /** client/components/i2s_capture/i2s_capture.c: 24 valid bits, justified high in the slot. */
  function SlotToSample(slot: int): (x: int)
    requires -0x8000_0000 <= slot < 0x8000_0000
    ensures -0x80_0000 <= x < 0x80_0000
  {
    slot / 256
  }

  /** A 24-bit sample comes out of its slot whatever the low byte holds. */
  lemma SlotHoldsSample(x: int, low: int)
    requires -0x80_0000 <= x < 0x80_0000 && 0 <= low < 256
    ensures SlotToSample(256 * x + low) == x
  {
  }

  // ---- DC blocker ------------------------------------------------------------------------

  /** y[n] = x[n] - x[n-1] + R * y[n-1] per channel, on an interleaved stream. The definition
      never mixes channels: i depends on i - nch only. */
  function DcAt(xs: seq<int>, nch: nat, i: nat): int
    requires nch > 0 && i < |xs|
    decreases i
  {
    if i < nch then xs[i]
    else xs[i] - xs[i - nch] + DC_BLOCK_R_Q15 * DcAt(xs, nch, i - nch) / 32768
  }

  ghost predicate Within(xs: seq<int>, m: int) {
    forall i :: 0 <= i < |xs| ==> -m <= xs[i] < m
  }

  /** How far the output may stand from the input; see DcBoundIsReached. */
  ghost predicate DcClose(m: int, d: int) {
    -(m - 1) <= d <= m - 992
  }

  lemma DcStepBound(m: int, px: int, d: int)
    requires m >= 992 && -m <= px < m && DcClose(m, d)
    ensures DcClose(m, DC_BLOCK_R_Q15 * (px + d) / 32768 - px)
  {
  }

  /** Over an unbounded stream the filter never accumulates: the output stays within one input
      range of the input. */
  lemma {:induction false} DcBound(xs: seq<int>, nch: nat, i: nat, m: int)
    requires nch > 0 && i < |xs| && m >= 992 && Within(xs, m)
    ensures DcClose(m, DcAt(xs, nch, i) - xs[i])
    decreases i
  {
    if i >= nch {
      DcBound(xs, nch, i - nch, m);
      DcStepBound(m, xs[i - nch], DcAt(xs, nch, i - nch) - xs[i - nch]);
    }
  }

  /** For 24-bit samples the cast to int32 is lossless; for any int32 samples no int64
      product overflows. */
  lemma DcFits(xs: seq<int>, nch: nat, i: nat)
    requires nch > 0 && i < |xs|
    ensures Within(xs, 0x80_0000) ==>
              var y := DcAt(xs, nch, i); -0x100_0000 < y <= 0x100_0000 - 993 && ToInt32(y) == y
    ensures Within(xs, 0x8000_0000) ==>
              var y := DcAt(xs, nch, i);
              -0x8000_0000_0000_0000 <= DC_BLOCK_R_Q15 * y < 0x8000_0000_0000_0000
  {
    if Within(xs, 0x80_0000) {
      DcBound(xs, nch, i, 0x80_0000);
    }
    if Within(xs, 0x8000_0000) {
      DcBound(xs, nch, i, 0x8000_0000);
    }
  }

  /** What a constant input settles at: silence from above, at most 992 below. */
  function Settled(x: int): int {
    if x > 0 then 0 else if x < -992 then -992 else x
  }

  lemma DecayStep(y: int)
    ensures var z := DC_BLOCK_R_Q15 * y / 32768;
            && Settled(z) == Settled(y)
            && (y > Settled(y) ==> Settled(y) <= z < y)
            && (y < Settled(y) ==> y < z <= Settled(y))
            && (y == Settled(y) ==> z == y)
  {
  }

  function Abs(n: int): nat {
    if n < 0 then -n else n
  }

  /** How many samples of i's channel come before i. */
  function Earlier(nch: nat, i: nat): nat
    requires nch > 0
  {
    if i < nch then 0 else 1 + Earlier(nch, i - nch)
  }

  /** Sample i and every earlier one of its channel equal x. */
  ghost predicate ConstantChannel(xs: seq<int>, nch: nat, i: nat, x: int)
    requires nch > 0 && i < |xs|
    decreases i
  {
    xs[i] == x && (i >= nch ==> ConstantChannel(xs, nch, i - nch, x))
  }

  /** The purpose of the filter: a constant bias x is removed. After at most |x| samples of the
      channel the output is at its settled value, within 992 of zero, and stays there. */
  lemma {:induction false} DcIsRemoved(xs: seq<int>, nch: nat, i: nat, x: int)
    requires nch > 0 && i < |xs| && ConstantChannel(xs, nch, i, x)
    ensures var y, n := DcAt(xs, nch, i), Earlier(nch, i);
            Settled(y) == Settled(x) && Abs(y - Settled(x)) <= (if n >= Abs(x) then 0 else Abs(x) - n)
    decreases i
  {
    if i >= nch {
      DcIsRemoved(xs, nch, i - nch, x);
      DecayStep(DcAt(xs, nch, i - nch));
    }
  }

  /** The bound of DcBound cannot be improved: constant streams at the two ends of the input
      range reach it. */
  lemma DcBoundIsReached(xs: seq<int>, i: nat, x: int)
    requires i < |xs| && i >= Abs(x) && forall j :: 0 <= j < |xs| ==> xs[j] == x
    ensures x == -0x80_0000 ==> DcAt(xs, 1, i) - x == 0x80_0000 - 992
    ensures x == 0x7f_ffff ==> DcAt(xs, 1, i) - x == -0x7f_ffff
  {
    ConstantIsConstant(xs, i, x);
    DcIsRemoved(xs, 1, i, x);
  }

  lemma {:induction false} ConstantIsConstant(xs: seq<int>, i: nat, x: int)
    requires i < |xs| && forall j :: 0 <= j < |xs| ==> xs[j] == x
    ensures ConstantChannel(xs, 1, i, x) && Earlier(1, i) == i
  {
    if i > 0 {
      ConstantIsConstant(xs, i - 1, x);
    }
  }

  // ---- Gain ------------------------------------------------------------------------------

  ghost predicate IsPeak(s: seq<int>, peak: int) {
    && peak >= 1 && (forall i :: 0 <= i < |s| ==> Abs(s[i]) <= peak)
    && (peak == 1 || exists i :: 0 <= i < |s| && Abs(s[i]) == peak)
  }

  function Desired(peak: int, g: int): int
    requires peak >= 1
  {
    if peak < AGC_NOISE_FLOOR then g
    else
      var d := AGC_TARGET_PEAK * 65536 / peak;
      if d > AGC_G_MAX then AGC_G_MAX else if d < AGC_G_MIN then AGC_G_MIN else d
  }

  function NextGain(peak: int, g: int): int
    requires peak >= 1
  {
    var desired := Desired(peak, g);
    var num := if desired < g then AGC_ATTACK_NUM else AGC_RELEASE_NUM;
    var g1 := g + (desired - g) * num / 256;
    if g1 < AGC_G_MIN then AGC_G_MIN else if g1 > AGC_G_MAX then AGC_G_MAX else g1
  }

  function Narrow(f: int, g: int): int {
    var v := (f * g + 32768) / 65536;
    if v > 32767 then 32767 else if v < -32768 then -32768 else v
  }

  /** r is n / 65536 rounded to the nearest, halves up, and cut to 16 bits. */
  ghost predicate Rounded(n: int, r: int) {
    && -32768 <= r <= 32767
    && (if n < -0x8000_0000 - 32768 then r == -32768
        else if n >= 0x8000_0000 - 32768 then r == 32767
        else -32768 <= n - 65536 * r < 32768)
  }

  /** Narrowing applies the gain: it rounds the product of sample and gain, and nothing else. */
  lemma NarrowIsRounded(f: int, g: int, r: int)
    ensures Rounded(f * g, r) <==> r == Narrow(f, g)
  {
  }

  ghost predicate InGainRange(g: int) {
    AGC_G_MIN <= g <= AGC_G_REACHED
  }

  lemma QuotientBound(n: int, p: int)
    requires p >= 1 && n >= 0
    ensures n / p * p <= n < n / p * p + p
    ensures p >= AGC_NOISE_FLOOR ==> n / p <= n / AGC_NOISE_FLOOR
  {
    if p >= AGC_NOISE_FLOOR {
      MulMonotone(AGC_NOISE_FLOOR, p, n / p);
    }
  }

  lemma DesiredInRange(peak: int, g: int)
    requires peak >= 1 && InGainRange(g)
    ensures InGainRange(Desired(peak, g))
  {
    QuotientBound(AGC_TARGET_PEAK * 65536, peak);
  }

  /** The gain moves toward the desired gain, never past it, and never leaves its range: a fall covers five
      eighths of the way, a rise one part in 32. */
  lemma GainMovesToDesired(peak: int, g: int)
    requires peak >= 1 && InGainRange(g)
    ensures var d, h := Desired(peak, g), NextGain(peak, g);
            && InGainRange(h)
            && (d < g ==> d <= h < g)
            && (d >= g ==> g <= h <= d)
            && (h == g <==> g <= d <= g + 31)
            && (d < g ==> 3 * (g - d) - 8 < 8 * (h - d) <= 3 * (g - d))
            && (d >= g ==> 31 * (d - g) <= 32 * (d - h) < 31 * (d - g) + 32)
  {
    DesiredInRange(peak, g);
  }

  function GainAfter(g: int, peaks: seq<int>): int
    requires forall i :: 0 <= i < |peaks| ==> peaks[i] >= 1
    decreases peaks
  {
    if peaks == [] then g else GainAfter(NextGain(peaks[0], g), peaks[1..])
  }

  /** Whatever the signal, a run that starts at unity keeps the gain in [256, 13107], well
      under the coded maximum of 20000. */
  lemma {:induction false} GainStaysInRange(g: int, peaks: seq<int>)
    requires InGainRange(g) && forall i :: 0 <= i < |peaks| ==> peaks[i] >= 1
    ensures InGainRange(GainAfter(g, peaks))
    decreases peaks
  {
    if peaks != [] {
      GainMovesToDesired(peaks[0], g);
      GainStaysInRange(NextGain(peaks[0], g), peaks[1..]);
    }
  }

  /** Under a steady signal above the noise floor the gain falls exactly to the desired value,
      or rises to within 31 below it, in at most |desired - g| frames. */
  lemma {:induction false} GainConverges(g: int, peak: int, peaks: seq<int>)
    requires InGainRange(g) && peak >= AGC_NOISE_FLOOR
    requires forall i :: 0 <= i < |peaks| ==> peaks[i] == peak
    requires |peaks| >= Abs(Desired(peak, g) - g)
    ensures var d, h := Desired(peak, g), GainAfter(g, peaks);
            if g >= d then h == d else d - 31 <= h <= d
    decreases peaks
  {
    GainMovesToDesired(peak, g);
    var h := NextGain(peak, g);
    if peaks != [] {
      if h != g {
        GainConverges(h, peak, peaks[1..]);
      } else {
        GainHolds(g, peak, peaks);
      }
    }
  }

  lemma {:induction false} GainHolds(g: int, peak: int, peaks: seq<int>)
    requires InGainRange(g) && peak >= 1 && NextGain(peak, g) == g
    requires forall i :: 0 <= i < |peaks| ==> peaks[i] == peak
    ensures GainAfter(g, peaks) == g
    decreases peaks
  {
    if peaks != [] {
      GainHolds(g, peak, peaks[1..]);
    }
  }

  /** Below the noise floor nothing moves: silence does not raise the gain. */
  lemma {:induction false} SilenceHoldsGain(g: int, peaks: seq<int>)
    requires InGainRange(g) && forall i :: 0 <= i < |peaks| ==> 1 <= peaks[i] < 30000
    ensures GainAfter(g, peaks) == g
    decreases peaks
  {
    if peaks != [] {
      GainMovesToDesired(peaks[0], g);
      SilenceHoldsGain(g, peaks[1..]);
    }
  }

  /** How far above the desired gain n frames of attack leave it at most. */
  function AttackLeft(n: nat): nat {
    if n == 0 then AGC_G_REACHED - AGC_G_MIN else AttackLeft(n - 1) * 3 / 8
  }

  lemma {:induction false} AttackShrinks(g: int, peak: int, peaks: seq<int>, n: nat)
    requires InGainRange(g) && peak >= AGC_NOISE_FLOOR && 0 <= g - Desired(peak, g) <= AttackLeft(n)
    requires forall i :: 0 <= i < |peaks| ==> peaks[i] == peak
    ensures 0 <= GainAfter(g, peaks) - Desired(peak, g) <= AttackLeft(n + |peaks|)
    decreases peaks
  {
    if peaks != [] {
      GainMovesToDesired(peak, g);
      AttackShrinks(NextGain(peak, g), peak, peaks[1..], n + 1);
    }
  }

  lemma {:induction false} AttackEnds(n: nat)
    requires n >= 10
    ensures AttackLeft(n) == 0
    decreases n
  {
    if n == 10 {
      assert AttackLeft(2) == 1807;
      assert AttackLeft(4) == 253;
      assert AttackLeft(6) == 35;
      assert AttackLeft(8) == 4;
    } else {
      AttackEnds(n - 1);
    }
  }

  /** What the desired gain is for: it takes the peak to 6000 or just below, within the least gain. */
  lemma DesiredMeetsTarget(peak: int, g: int)
    requires peak >= AGC_NOISE_FLOOR
    ensures var d := Desired(peak, g);
            if peak <= 1536000 then d * peak <= 6000 * 65536 < (d + 1) * peak && d <= AGC_G_REACHED else d == 256
  {
    QuotientBound(6000 * 65536, peak);
    QuotientAround256(6000 * 65536 / peak, peak);
  }

  lemma QuotientAround256(q: int, peak: int)
    requires 0 <= q && 0 < peak && q * peak <= 6000 * 65536 < q * peak + peak
    ensures if peak <= 1536000 then q >= 256 else q <= 256
    ensures q * peak + peak == (q + 1) * peak
  {
    if q < 256 {
      MulMonotone(q + 1, 256, peak);
    } else if q > 256 {
      MulMonotone(257, q, peak);
    }
  }

  /** What the automatic gain control is for. Under a steady peak above the noise floor, whatever the gain
      was, ten frames end every fall and 12851 frames every rise: the peak then leaves at 6000 or less,
      and at no less than 6000 by 32 steps of the gain; a fall ends within one step. Peaks above 1536000
      would need less than the least gain, which they get. */
  lemma GainSettles(g: int, peak: int, peaks: seq<int>)
    requires InGainRange(g) && peak >= 30000 && forall i :: 0 <= i < |peaks| ==> peaks[i] == peak
    ensures var h := GainAfter(g, peaks);
            && (peak > 1536000 && |peaks| >= 10 ==> h == 256)
            && (peak <= 1536000 && g * peak > 6000 * 65536 && |peaks| >= 10 ==>
                  h * peak <= 6000 * 65536 < (h + 1) * peak)
            && (peak <= 1536000 && |peaks| >= 12851 ==> h * peak <= 6000 * 65536 < (h + 32) * peak)
  {
    hide Desired;
    hide NextGain;
    hide GainAfter;
    var d, h := Desired(peak, g), GainAfter(g, peaks);
    DesiredInRange(peak, g);
    DesiredMeetsTarget(peak, g);
    if g >= d && |peaks| >= 10 {
      AttackShrinks(g, peak, peaks, 0);
      AttackEnds(|peaks|);
    }
    if g < d && |peaks| >= 12851 {
      GainConverges(g, peak, peaks);
    }
    SettledNear(d, g, h, peak);
  }

  lemma SettledNear(d: int, g: int, h: int, peak: int)
    requires peak > 0
    ensures g <= d && d * peak <= 6000 * 65536 ==> g * peak <= 6000 * 65536
    ensures d - 31 <= h <= d && d * peak <= 6000 * 65536 < (d + 1) * peak ==>
              h * peak <= 6000 * 65536 < (h + 32) * peak
  {
    MulStep(peak, d - g, d, g);
    MulStep(peak, d - h, d, h);
    MulStep(peak, h + 32 - (d + 1), h + 32, d + 1);
  }

  lemma MulStep(peak: int, k: int, a: int, b: int)
    requires peak > 0 && k == a - b
    ensures k >= 0 ==> a * peak >= b * peak
  {
    assert a * peak - b * peak == k * peak;
  }

  lemma MulMonotone(a: int, b: int, c: int)
    requires 0 <= a <= b && 0 <= c
    ensures 0 <= a * c <= b * c
  {
  }

  lemma MulAbs(f: int, g: int)
    requires g >= 0
    ensures Abs(f * g) == Abs(f) * g
  {
    if f < 0 {
      assert f * g == -((-f) * g);
      MulMonotone(0, -f, g);
    } else {
      MulMonotone(0, f, g);
    }
  }

  /** On a frame whose gain is not being reduced, and whose peak is low enough that the target
      is above unity gain, every output sample is within the target: the limiter is idle. */
  lemma OutputWithinTarget(peak: int, g: int, f: int)
    requires peak >= 1 && InGainRange(g) && Abs(f) <= peak <= 1536000
    requires NextGain(peak, g) >= g
    ensures -AGC_TARGET_PEAK <= Narrow(f, NextGain(peak, g)) <= AGC_TARGET_PEAK
  {
    var h := NextGain(peak, g);
    GainTimesPeak(peak, g);
    MulAbs(f, h);
    MulMonotone(Abs(f), peak, h);
    hide NextGain;
    assert Abs(f * h) <= 6000 * 65536;
  }

  lemma GainTimesPeak(peak: int, g: int)
    requires 1 <= peak <= 1536000 && InGainRange(g) && NextGain(peak, g) >= g
    ensures InGainRange(NextGain(peak, g)) && 0 <= peak * NextGain(peak, g) <= 6000 * 65536
  {
    hide NextGain;
    GainMovesToDesired(peak, g);
    var d, h := Desired(peak, g), NextGain(peak, g);
    if peak < AGC_NOISE_FLOOR {
      MulMonotone(peak, AGC_NOISE_FLOOR - 1, h);
    } else {
      DesiredMeetsTarget(peak, g);
      hide Desired;
      MulMonotone(h, d, peak);
    }
  }

  // ---- The task's per-frame loops ------------------------------------------------------------

  class OpusKernel {
    const nch: nat
    const prevX: array<int>
    const prevY: array<int>
    var agcG: int
    ghost var past: seq<int>  // every sample filtered so far

    ghost predicate Shape()
    {
      1 <= nch <= MAX_CH && prevX != prevY && prevX.Length == prevY.Length == MAX_CH
    }

    /** The per-channel state is the last input and output of that channel. */
    ghost predicate Valid()
      reads this, prevX, prevY
    {
      && Shape() && |past| % nch == 0 && InGainRange(agcG)
      && (forall c :: 0 <= c < nch ==> Primed(past, nch, |past| + c, prevX[c], prevY[c]))
    }

    /** px and py are the input and output one channel step before sample n. */
    static ghost predicate Primed(xs: seq<int>, nch: nat, n: nat, px: int, py: int)
      requires 0 < nch
    {
      if n < nch then px == 0 && py == 0
      else n - nch < |xs| && px == xs[n - nch] && py == DcAt(xs, nch, n - nch)
    }

    /** channels outside 1..MAX_CH fall back to one. */
    constructor (channels: int)
      ensures Valid() && fresh(prevX) && fresh(prevY) && past == [] && agcG == AGC_G_MIN
      ensures nch == if 0 < channels <= MAX_CH then channels else 1
    {
      nch := if 0 < channels <= MAX_CH then channels else 1;
      prevX := new int[MAX_CH](_ => 0);
      prevY := new int[MAX_CH](_ => 0);
      agcG, past := AGC_G_MIN, [];
    }

    static lemma ChannelCycle(start: nat, i: nat, nch: nat)
      requires 1 <= nch <= MAX_CH && start % nch == 0
      ensures 0 <= i % nch < nch && (i + nch) % nch == i % nch
      ensures nch == 2 ==> i % nch == i % 2 && (i + 1) % nch == 1 - i % nch
      ensures (start + i) % nch == i % nch
    {
      if nch == 2 {
        assert i % nch == i % 2 && (i + 1) % nch == (i + 1) % 2 && (start + i) % nch == (start + i) % 2;
      } else {
        assert i % nch == i % 1 && (i + 1) % nch == (i + 1) % 1 && (start + i) % nch == (start + i) % 1;
      }
    }

    static lemma DcPrefix(xs: seq<int>, ys: seq<int>, nch: nat, i: nat)
      requires nch > 0 && i < |xs| && xs <= ys
      ensures DcAt(xs, nch, i) == DcAt(ys, nch, i)
      decreases i
    {
      if i >= nch { DcPrefix(xs, ys, nch, i - nch); }
    }

    static lemma PrimedGrows(xs: seq<int>, ys: seq<int>, nch: nat, n: nat, px: int, py: int)
      requires nch > 0 && xs <= ys && Primed(xs, nch, n, px, py)
      ensures Primed(ys, nch, n, px, py)
    {
      if n >= nch { DcPrefix(xs, ys, nch, n - nch); }
    }

    /** One sample of channel ch. */
    method Filter(ch: nat, x: int) returns (y: int)
      requires Shape() && ch < nch
      modifies prevX, prevY
      ensures y == x - old(prevX[ch]) + DC_BLOCK_R_Q15 * old(prevY[ch]) / 32768
      ensures prevX[ch] == x && prevY[ch] == y
      ensures forall c :: 0 <= c < MAX_CH && c != ch ==> prevX[c] == old(prevX[c]) && prevY[c] == old(prevY[c])
    {
      y := x - prevX[ch] + DC_BLOCK_R_Q15 * prevY[ch] / 32768;
      prevX[ch] := x;
      prevY[ch] := y;
    }

    /** Before sample i of a frame every channel is primed for its next sample. */
    ghost predicate AllPrimed(all: seq<int>, n0: nat, i: nat)
      requires Shape()
      reads this, prevX, prevY
    {
      && Primed(all, nch, n0 + i, prevX[i % nch], prevY[i % nch])
      && (nch == 2 ==> Primed(all, nch, n0 + i + 1, prevX[1 - i % nch], prevY[1 - i % nch]))
    }

    method FilterFrameSample(frame: array<int>, i: nat, ghost all: seq<int>, ghost n0: nat)
      requires Shape() && frame != prevX && frame != prevY && i < frame.Length
      requires |all| == n0 + frame.Length && n0 % nch == 0 && frame[i] == all[n0 + i] && AllPrimed(all, n0, i)
      modifies frame, prevX, prevY
      ensures frame[..] == old(frame[..])[i := ToInt32(DcAt(all, nch, n0 + i))]
      ensures AllPrimed(all, n0, i + 1)
    {
      ChannelCycle(n0, i, nch);
      ChannelCycle(n0, i + 1, nch);
      var y := Filter(i % nch, frame[i]);
      assert y == DcAt(all, nch, n0 + i);
      assert Primed(all, nch, n0 + i + nch, all[n0 + i], y);
      frame[i] := ToInt32(y);
    }

    lemma PrimedAtStart(all: seq<int>)
      requires Valid() && past <= all
      ensures AllPrimed(all, |past|, 0)
    {
      ChannelCycle(|past|, 0, nch);
      forall c | 0 <= c < nch ensures Primed(all, nch, |past| + c, prevX[c], prevY[c]) {
        PrimedGrows(past, all, nch, |past| + c, prevX[c], prevY[c]);
      }
    }

    lemma PrimedAtEnd(all: seq<int>, n0: nat, len: nat)
      requires Shape() && |all| == n0 + len && n0 % nch == 0 && len % nch == 0 && AllPrimed(all, n0, len)
      ensures |all| % nch == 0
      ensures forall c :: 0 <= c < nch ==> Primed(all, nch, |all| + c, prevX[c], prevY[c])
    {
      ChannelCycle(n0, len, nch);
    }

    /** The frame when its first i samples are filtered. */
    static ghost predicate PartlyFiltered(f: seq<int>, all: seq<int>, nch: nat, n0: nat, i: nat)
      requires nch > 0 && |all| == n0 + |f|
    {
      && (forall j :: i <= j < |f| ==> f[j] == all[n0 + j])
      && (forall j :: 0 <= j < i && j < |f| ==> f[j] == ToInt32(DcAt(all, nch, n0 + j)))
    }

    method RemoveDc(frame: array<int>)
      requires Valid() && frame != prevX && frame != prevY && frame.Length % nch == 0
      modifies frame, prevX, prevY, this`past
      ensures Valid() && past == old(past) + old(frame[..])
      ensures forall i :: 0 <= i < frame.Length ==> frame[i] == ToInt32(DcAt(past, nch, |old(past)| + i))
    {
      hide DcAt;
      hide ToInt32;
      hide Primed;
      ghost var n0, all := |past|, past + frame[..];
      PrimedAtStart(all);
      for i := 0 to frame.Length
        invariant past == old(past) && AllPrimed(all, n0, i)
        invariant PartlyFiltered(frame[..], all, nch, n0, i)
      {
        assert frame[i] == frame[..][i];
        FilterFrameSample(frame, i, all, n0);
      }
      PrimedAtEnd(all, n0, frame.Length);
      past := all;
      assert forall i :: 0 <= i < frame.Length ==> frame[i] == frame[..][i];
    }

    method Peak(frame: array<int>) returns (peak: int)
      ensures IsPeak(frame[..], peak)
    {
      peak := 1;
      for i := 0 to frame.Length
        invariant peak >= 1 && forall j :: 0 <= j < i ==> Abs(frame[j]) <= peak
        invariant peak == 1 || exists j :: 0 <= j < i && Abs(frame[j]) == peak
      {
        var a := if frame[i] < 0 then -frame[i] else frame[i];
        assert Abs(frame[i]) == a;
        if a > peak {
          peak := a;
        }
      }
      if peak != 1 {
        ghost var j :| 0 <= j < frame.Length && Abs(frame[j]) == peak;
        assert Abs(frame[..][j]) == peak;
      }
    }

    method UpdateGain(peak: int)
      requires peak >= 1 && InGainRange(agcG)
      modifies this`agcG
      ensures agcG == NextGain(peak, old(agcG)) && InGainRange(agcG)
    {
      GainMovesToDesired(peak, agcG);
      var desired := AGC_TARGET_PEAK * 65536 / peak;
      if desired > AGC_G_MAX { desired := AGC_G_MAX; }
      if desired < AGC_G_MIN { desired := AGC_G_MIN; }
      if peak < AGC_NOISE_FLOOR { desired := agcG; }
      var num := if desired < agcG then AGC_ATTACK_NUM else AGC_RELEASE_NUM;
      agcG := agcG + (desired - agcG) * num / 256;
      agcG := if agcG < AGC_G_MIN then AGC_G_MIN else agcG;
      agcG := if agcG > AGC_G_MAX then AGC_G_MAX else agcG;
    }

    method NarrowFrame(frame: array<int>, pcm16: array<int>, g: int)
      requires pcm16.Length == frame.Length && pcm16 != frame
      modifies pcm16
      ensures forall i :: 0 <= i < frame.Length ==> Rounded(frame[i] * g, pcm16[i])
    {
      hide Rounded;
      for i := 0 to frame.Length
        invariant forall j :: 0 <= j < i ==> Rounded(frame[j] * g, pcm16[j])
      {
        NarrowIsRounded(frame[i], g, Narrow(frame[i], g));
        var v := (frame[i] * g + 32768) / 65536;
        if v > 32767 { v := 32767; }
        if v < -32768 { v := -32768; }
        pcm16[i] := v;
      }
    }

    /** One frame: remove DC in place, choose the gain, narrow. */
    method Process(frame: array<int>, pcm16: array<int>, agc: bool, gainQ8: int) returns (ghost peak: int)
      requires Valid() && frame.Length % nch == 0 && pcm16.Length == frame.Length
      requires frame != prevX && frame != prevY && pcm16 != frame && pcm16 != prevX && pcm16 != prevY
      modifies frame, pcm16, prevX, prevY, this
      ensures Valid() && past == old(past) + old(frame[..]) && IsPeak(frame[..], peak)
      ensures agcG == if agc then NextGain(peak, old(agcG)) else old(agcG)
      ensures forall i :: 0 <= i < frame.Length ==>
                && frame[i] == ToInt32(DcAt(past, nch, |old(past)| + i))
                && Rounded(frame[i] * (if agc then agcG else gainQ8), pcm16[i])
    {
      hide DcAt;
      hide ToInt32;
      hide Primed;
      hide Rounded;
      hide NextGain;
      RemoveDc(frame);
      var pk := Peak(frame);
      peak := pk;
      if agc {
        UpdateGain(pk);
      }
      NarrowFrame(frame, pcm16, if agc then agcG else gainQ8);
    }
  }
}

/** The bitwise CRC-32 of server/internal/audio/opus_recorder.go (polynomial 0x04C11DB7, most
    significant bit first, no reflection). A uint32 is an integer below 2^32; exclusive or is
    defined bit by bit. */
module OggCrc {
  import opened Bytes

  const POLY: U32 := 0x04C1_1DB7
  const TOP := 0x8000_0000

  // ---- Exclusive or --------------------------------------------------------------------------

  function Half(n: nat): (h: nat)
    ensures h <= n && (n > 0 ==> h < n)
  {
    n / 2
  }

  function Bit(n: nat): (b: nat)
    ensures b <= 1
  {
    n % 2
  }

  function XorBit(x: nat, y: nat): nat {
    if x == y then 0 else 1
  }

  function Xor(a: nat, b: nat): nat
    decreases a + b
  {
    if a == 0 && b == 0 then 0 else 2 * Xor(Half(a), Half(b)) + XorBit(Bit(a), Bit(b))
  }

  lemma Join(q: nat, r: nat)
    requires r <= 1
    ensures Half(2 * q + r) == q && Bit(2 * q + r) == r
  {
  }

  lemma Halves(n: nat)
    ensures n == 2 * Half(n) + Bit(n)
  {
  }

  lemma XorHalves(a: nat, b: nat)
    ensures Half(Xor(a, b)) == Xor(Half(a), Half(b)) && Bit(Xor(a, b)) == XorBit(Bit(a), Bit(b))
  {
    if a == 0 && b == 0 {
      assert Half(0) == 0 && Bit(0) == 0;
    } else {
      Join(Xor(Half(a), Half(b)), XorBit(Bit(a), Bit(b)));
    }
  }

  lemma SameHalves(a: nat, b: nat)
    requires Half(a) == Half(b) && Bit(a) == Bit(b)
    ensures a == b
  {
    Halves(a);
    Halves(b);
  }

  lemma {:induction false} XorComm(a: nat, b: nat)
    ensures Xor(a, b) == Xor(b, a)
    decreases a + b
  {
    if a != 0 || b != 0 { XorComm(Half(a), Half(b)); }
  }

  lemma {:induction false} XorZero(a: nat)
    ensures Xor(a, 0) == a
    decreases a
  {
    if a != 0 {
      XorZero(Half(a));
      Halves(a);
      assert Half(0) == 0 && Bit(0) == 0;
    }
  }

  lemma {:induction false} XorAssoc(a: nat, b: nat, c: nat)
    ensures Xor(Xor(a, b), c) == Xor(a, Xor(b, c))
    decreases a + b + c
  {
    if a != 0 || b != 0 || c != 0 {
      hide Xor;
      hide Half;
      hide Bit;
      XorAssoc(Half(a), Half(b), Half(c));
      XorHalves(a, b);
      XorHalves(b, c);
      XorHalves(Xor(a, b), c);
      XorHalves(a, Xor(b, c));
      SameHalves(Xor(Xor(a, b), c), Xor(a, Xor(b, c)));
    }
  }

  lemma {:induction false} XorSelf(a: nat)
    ensures Xor(a, a) == 0
    decreases a
  {
    if a != 0 { XorSelf(Half(a)); }
  }

  lemma XorCancel(a: nat, b: nat)
    ensures Xor(Xor(a, b), b) == a
  {
    XorAssoc(a, b, b);
    XorSelf(b);
    XorZero(a);
  }

  function Pow2(k: nat): (p: nat)
    ensures p >= 1
  {
    if k == 0 then 1 else 2 * Pow2(k - 1)
  }

  /** a shifted left by k. */
  function Shl(a: nat, k: nat): nat {
    if k == 0 then a else 2 * Shl(a, k - 1)
  }

  lemma ShlStep(a: nat, k: nat)
    requires k > 0
    ensures Shl(a, k) == 2 * Shl(a, k - 1)
  {
  }

  lemma {:induction false} ShlIsTimes(a: nat, k: nat)
    ensures Shl(a, k) == a * Pow2(k)
    decreases k
  {
    if k > 0 {
      ShlIsTimes(a, k - 1);
      assert a * (2 * Pow2(k - 1)) == 2 * (a * Pow2(k - 1));
    }
  }

  lemma SplitStep(m: nat, r: nat, n: nat, s: nat, x: nat)
    requires Xor(m + Half(r), n + Half(s)) == x + Xor(Half(r), Half(s))
    ensures Xor(2 * m + r, 2 * n + s) == 2 * x + Xor(r, s)
  {
    hide Xor;
    hide Half;
    hide Bit;
    Halves(r);
    Halves(s);
    Join(m + Half(r), Bit(r));
    Join(n + Half(s), Bit(s));
    XorHalves(2 * m + r, 2 * n + s);
    XorHalves(r, s);
    Halves(Xor(2 * m + r, 2 * n + s));
    Halves(Xor(r, s));
  }

  lemma HalfBound(r: nat, k: nat)
    requires 0 < k && r < Pow2(k)
    ensures Half(r) < Pow2(k - 1)
  {
  }

  lemma {:induction false} XorBound(a: nat, b: nat, k: nat)
    requires a < Pow2(k) && b < Pow2(k)
    ensures Xor(a, b) < Pow2(k)
    decreases k
  {
    if k == 0 {
      assert Xor(0, 0) == 0;
    } else {
      HalfBound(a, k);
      HalfBound(b, k);
      XorBound(Half(a), Half(b), k - 1);
      XorHalves(a, b);
      Halves(Xor(a, b));
      hide Xor;
      hide Half;
      hide Bit;
    }
  }

  /** Bits above and below position k do not interact. */
  lemma {:induction false} XorSplit(a: nat, r: nat, b: nat, s: nat, k: nat)
    requires r < Pow2(k) && s < Pow2(k)
    ensures Xor(Shl(a, k) + r, Shl(b, k) + s) == Shl(Xor(a, b), k) + Xor(r, s)
    decreases k
  {
    hide Xor;
    hide Half;
    hide Bit;
    if k == 0 {
      XorZero(0);
    } else {
      HalfBound(r, k);
      HalfBound(s, k);
      ShlStep(a, k);
      ShlStep(b, k);
      ShlStep(Xor(a, b), k);
      hide Pow2;
      hide Shl;
      hide XorBit;
      XorSplit(a, Half(r), b, Half(s), k - 1);
      SplitStep(Shl(a, k - 1), r, Shl(b, k - 1), s, Shl(Xor(a, b), k - 1));
    }
  }

  lemma Pow2Values()
    ensures Pow2(8) == 256 && Pow2(16) == 0x1_0000 && Pow2(24) == 0x100_0000
    ensures Pow2(31) == TOP && Pow2(32) == 0x1_0000_0000
  {
    assert Pow2(4) == 16;
    assert Pow2(8) == 256;
    assert Pow2(12) == 4096;
    assert Pow2(16) == 0x1_0000;
    assert Pow2(20) == 0x10_0000;
    assert Pow2(24) == 0x100_0000;
    assert Pow2(28) == 0x1000_0000;
  }

  function Xor32(a: U32, b: U32): U32 {
    Pow2Values();
    XorBound(a, b, 32);
    Xor(a, b)
  }

  // ---- The checksum ------------------------------------------------------------------------------

  /** One round of the inner loop: shift left, and reduce when a bit fell out. */
  function BitStep(crc: U32): U32 {
    if crc >= TOP then Xor32(2 * crc - 0x1_0000_0000, POLY) else 2 * crc
  }

  function BitSteps(crc: U32, n: nat): U32
    decreases n
  {
    if n == 0 then crc else BitSteps(BitStep(crc), n - 1)
  }

  /** The byte shifted to the top of the word. */
  function AtTop(b: byte): U32 {
    (b as int) * 0x100_0000
  }

  function ByteStep(crc: U32, b: byte): U32 {
    BitSteps(Xor32(crc, AtTop(b)), 8)
  }

  /** The checksum state after data. */
  function CrcFrom(crc: U32, data: seq<byte>): U32
    decreases data
  {
    if data == [] then crc else CrcFrom(ByteStep(crc, data[0]), data[1..])
  }

  function OggCrc(data: seq<byte>): U32 {
    CrcFrom(0, data)
  }

  lemma {:induction false} BitStepsAdd(crc: U32, m: nat, n: nat)
    ensures BitSteps(BitSteps(crc, m), n) == BitSteps(crc, m + n)
    decreases m
  {
    if m > 0 { BitStepsAdd(BitStep(crc), m - 1, n); }
  }

  lemma {:induction false} CrcConcat(crc: U32, a: seq<byte>, b: seq<byte>)
    ensures CrcFrom(crc, a + b) == CrcFrom(CrcFrom(crc, a), b)
    decreases a
  {
    if a == [] {
      assert a + b == b;
    } else {
      assert (a + b)[1..] == a[1..] + b;
      CrcConcat(ByteStep(crc, a[0]), a[1..], b);
    }
  }

  method UpdateCrc(crc: U32, b: byte) returns (r: U32)
    ensures r == ByteStep(crc, b)
  {
    hide Xor;
    r := Xor32(crc, AtTop(b));
    ghost var start := r;
    for i := 0 to 8
      invariant r == BitSteps(start, i)
    {
      BitStepsAdd(start, i, 1);
      assert BitSteps(r, 1) == BitSteps(BitStep(r), 0);
      if r >= TOP {
        r := Xor32(Wrap32(2 * r), POLY);
      } else {
        r := Wrap32(2 * r);
      }
    }
  }

  method ComputeCrc(data: seq<byte>) returns (crc: U32)
    ensures crc == OggCrc(data)
  {
    hide ByteStep;
    crc := 0;
    for k := 0 to |data|
      invariant crc == CrcFrom(0, data[..k])
    {
      ghost var before := crc;
      crc := UpdateCrc(crc, data[k]);
      assert data[..k + 1] == data[..k] + [data[k]];
      CrcConcat(0, data[..k], [data[k]]);
      assert CrcFrom(before, [data[k]]) == CrcFrom(ByteStep(before, data[k]), []);
    }
    assert data[..|data|] == data;
  }

  // ---- The step is a bijection ----------------------------------------------------------------

  /** The round run backwards. */
  function BitUnstep(crc: U32): U32 {
    if Bit(crc) == 1 then Half(Xor32(crc, POLY)) + TOP else Half(crc)
  }

  lemma UnstepOfStep(crc: U32)
    ensures BitUnstep(BitStep(crc)) == crc
  {
    hide Xor;
    if crc >= TOP {
      XorCancel(2 * crc - 0x1_0000_0000, POLY);
      XorHalves(2 * crc - 0x1_0000_0000, POLY);
    }
  }

  lemma StepOfUnstep(crc: U32)
    ensures BitStep(BitUnstep(crc)) == crc
  {
    hide Xor;
    if Bit(crc) == 1 {
      XorCancel(crc, POLY);
      XorHalves(crc, POLY);
    }
  }

  lemma {:induction false} BitStepsInjective(a: U32, b: U32, n: nat)
    requires BitSteps(a, n) == BitSteps(b, n)
    ensures a == b
    decreases n
  {
    if n > 0 {
      BitStepsInjective(BitStep(a), BitStep(b), n - 1);
      UnstepOfStep(a);
      UnstepOfStep(b);
    }
  }

  lemma {:induction false} CrcStateInjective(a: U32, b: U32, data: seq<byte>)
    requires a != b
    ensures CrcFrom(a, data) != CrcFrom(b, data)
    decreases data
  {
    if data != [] {
      ByteStepInjective(a, data[0], b, data[0]);
      CrcStateInjective(ByteStep(a, data[0]), ByteStep(b, data[0]), data[1..]);
    }
  }

  /** From one state, different bytes lead to different states; on one byte, different states
      do. */
  lemma ByteStepInjective(a: U32, x: byte, b: U32, y: byte)
    requires (a == b) != (x == y)
    ensures ByteStep(a, x) != ByteStep(b, y)
  {
    hide Xor;
    var u, v := AtTop(x), AtTop(y);
    if ByteStep(a, x) == ByteStep(b, y) {
      BitStepsInjective(Xor32(a, u), Xor32(b, v), 8);
      XorCancel(a, u);
      XorCancel(b, v);
      XorComm(a, u);
      XorComm(b, v);
      XorCancel(u, a);
      XorCancel(v, b);
    }
  }

  /** Altering any single byte changes the checksum. */
  lemma ByteChangeChangesCrc(data: seq<byte>, i: nat, v: byte)
    requires i < |data| && v != data[i]
    ensures OggCrc(data[i := v]) != OggCrc(data)
  {
    var front, back := data[..i], data[i + 1..];
    var c := CrcFrom(0, front);
    assert data == front + ([data[i]] + back) && data[i := v] == front + ([v] + back);
    CrcConcat(0, front, [data[i]] + back);
    CrcConcat(0, front, [v] + back);
    assert ([data[i]] + back)[1..] == back && ([v] + back)[1..] == back;
    ByteStepInjective(c, data[i], c, v);
    CrcStateInjective(ByteStep(c, data[i]), ByteStep(c, v), back);
  }

  // ---- The step is linear ------------------------------------------------------------------------

  lemma XorSwap(a: nat, b: nat, c: nat, d: nat)
    ensures Xor(Xor(a, b), Xor(c, d)) == Xor(Xor(a, c), Xor(b, d))
  {
    XorAssoc(a, b, Xor(c, d));
    XorAssoc(b, c, d);
    XorComm(b, c);
    XorAssoc(c, b, d);
    XorAssoc(a, c, Xor(b, d));
  }

  function Low(crc: U32): nat {
    if crc >= TOP then crc - TOP else crc
  }

  function Feedback(crc: U32): nat {
    if crc >= TOP then POLY else 0
  }

  lemma BitStepParts(crc: U32)
    ensures BitStep(crc) == Xor(2 * Low(crc), Feedback(crc))
  {
    XorZero(2 * Low(crc));
  }

  lemma XorTop(a: U32, b: U32)
    ensures Xor(a, b) == (if (a >= TOP) == (b >= TOP) then 0 else TOP) + Xor(Low(a), Low(b))
    ensures Xor(Low(a), Low(b)) < TOP
  {
    var ta, tb := if a >= TOP then 1 else 0, if b >= TOP then 1 else 0;
    Pow2Values();
    hide Xor;
    hide Pow2;
    TopBit(ta);
    TopBit(tb);
    TopBit(XorBit(ta, tb));
    hide Shl;
    OneBit(ta, tb);
    XorBound(Low(a), Low(b), 31);
    XorSplit(ta, Low(a), tb, Low(b), 31);
  }

  lemma XorParts(a: U32, b: U32)
    ensures Low(Xor32(a, b)) == Xor(Low(a), Low(b)) && Feedback(Xor32(a, b)) == Xor(Feedback(a), Feedback(b))
  {
    assert Xor(0, 0) == 0;
    hide Xor;
    XorTop(a, b);
    XorSelf(POLY);
    XorZero(POLY);
    XorComm(0, POLY);
  }

  lemma TopBit(t: nat)
    requires t <= 1
    ensures Shl(t, 31) == if t == 0 then 0 else TOP
  {
    ShlIsTimes(t, 31);
    Pow2Values();
    hide Shl;
    hide Pow2;
  }

  lemma OneBit(x: nat, y: nat)
    requires x <= 1 && y <= 1
    ensures Xor(x, y) == XorBit(x, y)
  {
    assert Half(0) == 0 && Half(1) == 0 && Bit(0) == 0 && Bit(1) == 1 && Xor(0, 0) == 0;
  }

  lemma BitStepLinear(a: U32, b: U32)
    ensures BitStep(Xor32(a, b)) == Xor(BitStep(a), BitStep(b))
  {
    hide Xor;
    BitStepParts(a);
    BitStepParts(b);
    BitStepParts(Xor32(a, b));
    XorParts(a, b);
    XorHalves(2 * Low(a), 2 * Low(b));
    SameHalves(Xor(2 * Low(a), 2 * Low(b)), 2 * Xor(Low(a), Low(b)));
    hide BitStep;
    hide Low;
    hide Feedback;
    XorSwap(2 * Low(a), Feedback(a), 2 * Low(b), Feedback(b));
  }

  lemma {:induction false} BitStepsLinear(a: U32, b: U32, n: nat)
    ensures BitSteps(Xor32(a, b), n) == Xor(BitSteps(a, n), BitSteps(b, n))
    decreases n
  {
    hide Xor;
    if n > 0 {
      BitStepLinear(a, b);
      BitStepsLinear(BitStep(a), BitStep(b), n - 1);
    }
  }

  function XorBytes(a: seq<byte>, b: seq<byte>): (r: seq<byte>)
    requires |a| == |b|
    ensures |r| == |a|
  {
    if a == [] then []
    else
      Pow2Values();
      XorBound(a[0], b[0], 8);
      [Xor(a[0], b[0])] + XorBytes(a[1..], b[1..])
  }

  lemma AtTopXor(x: byte, y: byte)
    ensures Xor(x, y) < 256 && AtTop(Xor(x, y)) == Xor(AtTop(x), AtTop(y))
  {
    Pow2Values();
    assert Xor(0, 0) == 0;
    hide Xor;
    ShlIsTimes(x, 24);
    ShlIsTimes(y, 24);
    ShlIsTimes(Xor(x, y), 24);
    hide Shl;
    hide Pow2;
    XorBound(x, y, 8);
    XorSplit(x, 0, y, 0, 24);
  }

  /** The checksum of a bytewise exclusive or is the exclusive or of the checksums. */
  lemma {:induction false} CrcIsLinear(c: U32, d: U32, a: seq<byte>, b: seq<byte>)
    requires |a| == |b|
    ensures CrcFrom(Xor32(c, d), XorBytes(a, b)) == Xor(CrcFrom(c, a), CrcFrom(d, b))
    decreases a
  {
    if a != [] {
      var u, v := AtTop(a[0]), AtTop(b[0]);
      AtTopXor(a[0], b[0]);
      hide Xor;
      XorSwap(c, d, u, v);
      BitStepsLinear(Xor32(c, u), Xor32(d, v), 8);
      CrcIsLinear(ByteStep(c, a[0]), ByteStep(d, b[0]), a[1..], b[1..]);
    }
  }

  // ---- Bursts ----------------------------------------------------------------------------------

  lemma {:induction false} ShlOfDouble(w: nat, n: nat)
    ensures Shl(2 * w, n) == 2 * Shl(w, n) && w <= Shl(w, n)
    decreases n
  {
    if n > 0 { ShlOfDouble(w, n - 1); }
  }

  /** While no bit falls out, the rounds only shift. */
  lemma {:induction false} BitStepsShift(w: U32, n: nat)
    requires Shl(w, n) < 0x1_0000_0000
    ensures BitSteps(w, n) == Shl(w, n)
    decreases n
  {
    if n > 0 {
      ShlOfDouble(w, n - 1);
      BitStepsShift(2 * w, n - 1);
    }
  }

  /** Feeding the first of four bytes turns the word they form into the next one. */
  lemma AbsorbByte(c: U32, b0: byte, b1: byte, b2: byte, b3: byte)
    ensures BitSteps(Xor32(c, GetBe32([b0, b1, b2, b3])), 8) == Xor32(ByteStep(c, b0), GetBe32([b1, b2, b3, 0]))
  {
    hide GetBe32;
    hide Xor;
    hide Shl;
    hide AtTop;
    var low := GetBe32([0, b1, b2, b3]);
    WordParts(b0, b1, b2, b3);
    ShiftedWord(b1, b2, b3);
    JoinAbove(AtTop(b0), b0, low);
    XorAssoc(c, AtTop(b0), low);
    BitStepsLinear(Xor32(c, AtTop(b0)), low, 8);
    BitStepsShift(low, 8);
  }

  lemma WordParts(b0: byte, b1: byte, b2: byte, b3: byte)
    ensures GetBe32([b0, b1, b2, b3]) == AtTop(b0) + GetBe32([0, b1, b2, b3])
    ensures GetBe32([0, b1, b2, b3]) < 0x100_0000
  {
  }

  lemma ShiftedWord(b1: byte, b2: byte, b3: byte)
    ensures Shl(GetBe32([0, b1, b2, b3]), 8) == GetBe32([b1, b2, b3, 0])
  {
    ShlIsTimes(GetBe32([0, b1, b2, b3]), 8);
    Pow2Values();
    hide Shl;
    hide Pow2;
  }

  lemma JoinAbove(top: nat, b: byte, low: nat)
    requires top == AtTop(b) && low < 0x100_0000
    ensures Xor(top, low) == top + low
  {
    Pow2Values();
    hide Xor;
    ShlIsTimes(b, 24);
    ShlIsTimes(0, 24);
    hide Shl;
    hide Pow2;
    XorSplit(b, 0, 0, low, 24);
    XorZero(b);
    XorComm(0, low);
    XorZero(low);
  }

  /** Four bytes act on the state as one exclusive or with the word they form. */
  lemma FourBytesAreOneWord(c: U32, w: seq<byte>)
    requires |w| == 4
    ensures CrcFrom(c, w) == BitSteps(Xor32(c, GetBe32(w)), 32)
  {
    var c1 := ByteStep(c, w[0]);
    var c2 := ByteStep(c1, w[1]);
    var c3 := ByteStep(c2, w[2]);
    var c4 := ByteStep(c3, w[3]);
    assert w == [w[0], w[1], w[2], w[3]];
    AbsorbByte(c, w[0], w[1], w[2], w[3]);
    AbsorbByte(c1, w[1], w[2], w[3], 0);
    AbsorbByte(c2, w[2], w[3], 0, 0);
    AbsorbByte(c3, w[3], 0, 0, 0);
    assert GetBe32([0, 0, 0, 0]) == 0;
    XorZero(c4);
    BitStepsAdd(Xor32(c, GetBe32(w)), 8, 8);
    BitStepsAdd(Xor32(c, GetBe32(w)), 16, 8);
    BitStepsAdd(Xor32(c, GetBe32(w)), 24, 8);
    hide ByteStep;
    hide BitSteps;
    hide Xor;
    hide GetBe32;
    CrcOfFour(c, w);
  }

  lemma CrcOfFour(c: U32, w: seq<byte>)
    requires |w| == 4
    ensures CrcFrom(c, w) == ByteStep(ByteStep(ByteStep(ByteStep(c, w[0]), w[1]), w[2]), w[3])
  {
    hide ByteStep;
    assert w[1..][0] == w[1] && w[1..][1..] == w[2..] && w[2..][0] == w[2] && w[2..][1..] == w[3..];
    assert w[3..][0] == w[3] && w[3..][1..] == [];
    var c1 := ByteStep(c, w[0]);
    var c2 := ByteStep(c1, w[1]);
    var c3 := ByteStep(c2, w[2]);
    assert CrcFrom(c3, w[3..]) == ByteStep(c3, w[3]);
    assert CrcFrom(c2, w[2..]) == CrcFrom(c3, w[3..]);
    assert CrcFrom(c1, w[1..]) == CrcFrom(c2, w[2..]);
  }

  /** Any corruption confined to four consecutive bytes changes the checksum. */
  lemma BurstChangesCrc(front: seq<byte>, w: seq<byte>, w': seq<byte>, back: seq<byte>)
    requires |w| == |w'| == 4 && w != w'
    ensures OggCrc(front + w + back) != OggCrc(front + w' + back)
  {
    var c := CrcFrom(0, front);
    CrcConcat(0, front, w);
    CrcConcat(0, front + w, back);
    CrcConcat(0, front, w');
    CrcConcat(0, front + w', back);
    FourBytesAreOneWord(c, w);
    FourBytesAreOneWord(c, w');
    Be32Injective(w);
    Be32Injective(w');
    hide GetBe32;
    hide PutBe32;
    var x, y := GetBe32(w), GetBe32(w');
    XorComm(c, x);
    XorComm(c, y);
    XorCancel(x, c);
    XorCancel(y, c);
    hide Xor;
    if CrcFrom(c, w) == CrcFrom(c, w') {
      BitStepsInjective(Xor32(c, x), Xor32(c, y), 32);
    }
    CrcStateInjective(CrcFrom(c, w), CrcFrom(c, w'), back);
  }
}

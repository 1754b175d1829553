/** What the checksum of server/internal/audio/opus_recorder.go is: the remainder of the message, as a
    polynomial over the field of two elements, divided by x^32 + x^26 + x^23 + x^22 + x^16 + x^12 + x^11 +
    x^10 + x^8 + x^7 + x^5 + x^4 + x^2 + x + 1. */
module OggCrcDivision {
  import opened Bytes
  import opened OggCrc

  /** The coefficients of the generator. */
  const GENERATOR := 0x1_04C1_1DB7

  /** The product of two polynomials, without carries. */
  function Times(q: nat, p: nat): nat {
    if q == 0 then 0 else Xor(2 * Times(Half(q), p), if Bit(q) == 1 then p else 0)
  }

  /** The message as one number, first byte most significant. */
  function Value(data: seq<byte>): nat {
    if data == [] then 0 else 256 * Value(data[..|data| - 1]) + data[|data| - 1]
  }

  /** n is a multiple of the generator and r, which is of lower degree. */
  ghost predicate IsRemainder(n: nat, r: nat) {
    r < 0x1_0000_0000 && exists q :: n == Xor(Times(q, GENERATOR), r)
  }

  // ---- Products --------------------------------------------------------------------------------

  lemma XorOfDoubles(a: nat, b: nat)
    ensures Xor(2 * a, 2 * b) == 2 * Xor(a, b)
  {
    Join(a, 0);
    Join(b, 0);
    hide Xor;
    XorHalves(2 * a, 2 * b);
    Halves(Xor(2 * a, 2 * b));
  }

  lemma {:induction false} XorOfShifts(a: nat, b: nat, n: nat)
    ensures Xor(Shl(a, n), Shl(b, n)) == Shl(Xor(a, b), n)
    decreases n
  {
    hide Xor;
    if n > 0 {
      XorOfShifts(a, b, n - 1);
      XorOfDoubles(Shl(a, n - 1), Shl(b, n - 1));
    }
  }

  lemma TimesDouble(q: nat, p: nat)
    ensures Times(2 * q, p) == 2 * Times(q, p)
  {
    Join(q, 0);
    hide Half;
    hide Bit;
    XorZero(2 * Times(q, p));
    hide Xor;
  }

  lemma {:induction false} TimesShift(q: nat, p: nat, n: nat)
    ensures Times(Shl(q, n), p) == Shl(Times(q, p), n)
    decreases n
  {
    hide Times;
    if n > 0 {
      TimesShift(q, p, n - 1);
      TimesDouble(Shl(q, n - 1), p);
    }
  }

  /** The coefficient of the last power. */
  function Part(q: nat, p: nat): nat {
    if Bit(q) == 1 then p else 0
  }

  lemma TimesParts(q: nat, p: nat)
    ensures Times(q, p) == Xor(2 * Times(Half(q), p), Part(q, p))
  {
    if q == 0 {
      assert Half(0) == 0 && Bit(0) == 0 && Xor(0, 0) == 0;
    }
  }

  lemma PartOfXor(a: nat, b: nat, p: nat)
    ensures Part(Xor(a, b), p) == Xor(Part(a, p), Part(b, p))
  {
    XorHalves(a, b);
    XorSelf(p);
    XorZero(p);
    XorComm(0, p);
    assert Xor(0, 0) == 0;
    hide Xor;
  }

  /** Products distribute. */
  lemma {:induction false} TimesXor(a: nat, b: nat, p: nat)
    ensures Times(Xor(a, b), p) == Xor(Times(a, p), Times(b, p))
    decreases a + b
  {
    if a == 0 && b == 0 {
      assert Xor(0, 0) == 0;
    } else {
      TimesXor(Half(a), Half(b), p);
      hide Xor;
      hide Times;
      hide Part;
      XorHalves(a, b);
      TimesParts(a, p);
      TimesParts(b, p);
      TimesParts(Xor(a, b), p);
      PartOfXor(a, b, p);
      hide Half;
      XorOfDoubles(Times(Half(a), p), Times(Half(b), p));
      XorSwap(2 * Times(Half(a), p), Part(a, p), 2 * Times(Half(b), p), Part(b, p));
    }
  }

  lemma TimesOne(p: nat)
    ensures Times(1, p) == p && Times(0, p) == 0
  {
    assert Half(1) == 0 && Bit(1) == 1 && Times(0, p) == 0;
    XorComm(0, p);
    XorZero(p);
  }

  // ---- The checksum is a remainder ---------------------------------------------------------------

  /** One round subtracts the generator when the leading coefficient is one. */
  lemma StepDivides(crc: U32) returns (t: nat)
    ensures 2 * crc == Xor(Times(t, GENERATOR), BitStep(crc))
  {
    hide Times;
    hide Xor;
    TimesOne(GENERATOR);
    if crc >= TOP {
      t := 1;
      StepSubtracts(crc);
    } else {
      t := 0;
      XorComm(0, 2 * crc);
      XorZero(2 * crc);
    }
  }

  lemma StepSubtracts(crc: U32)
    requires crc >= TOP
    ensures Xor(GENERATOR, BitStep(crc)) == 2 * crc
  {
    hide Xor;
    hide Pow2;
    hide Shl;
    ShlValues();
    Pow2Values();
    XorComm(2 * crc - 0x1_0000_0000, POLY);
    XorCancel(2 * crc - 0x1_0000_0000, POLY);
    XorComm(POLY, BitStep(crc));
    XorZero(1);
    XorSplit(1, POLY, 0, BitStep(crc), 32);
  }

  lemma ShlValues()
    ensures Shl(1, 32) == 0x1_0000_0000 && Shl(0, 32) == 0
  {
    ShlIsTimes(1, 32);
    ShlIsTimes(0, 32);
    Pow2Values();
    hide Shl;
    hide Pow2;
  }

  lemma {:induction false} StepsDivide(crc: U32, n: nat) returns (q: nat)
    ensures Shl(crc, n) == Xor(Times(q, GENERATOR), BitSteps(crc, n))
    decreases n
  {
    hide Times;
    hide Xor;
    hide BitStep;
    if n == 0 {
      q := 0;
      TimesOne(GENERATOR);
      XorComm(0, crc);
      XorZero(crc);
    } else {
      var t := StepDivides(crc);
      var rest := StepsDivide(BitStep(crc), n - 1);
      q := Xor(Shl(t, n - 1), rest);
      ShlOfDouble(crc, n - 1);
      ShlStep(crc, n);
      XorOfShifts(Times(t, GENERATOR), BitStep(crc), n - 1);
      TimesShift(t, GENERATOR, n - 1);
      XorAssoc(Times(Shl(t, n - 1), GENERATOR), Times(rest, GENERATOR), BitSteps(crc, n));
      TimesXor(Shl(t, n - 1), rest, GENERATOR);
    }
  }

  lemma {:induction false} ShlTwice(a: nat, m: nat, n: nat)
    ensures Shl(Shl(a, m), n) == Shl(a, m + n)
    decreases n
  {
    if n > 0 { ShlTwice(a, m, n - 1); }
  }

  /** A byte joins the message below what came before it. */
  lemma ByteJoins(v: nat, b: byte)
    ensures Shl(256 * v + b, 32) == Xor(Shl(Shl(v, 32), 8), Shl(Shl(b, 24), 8))
  {
    hide Xor;
    ShlTwice(v, 32, 8);
    ShlTwice(v, 8, 32);
    ShlTwice(b, 24, 8);
    ShlIsTimes(v, 8);
    Pow2Values();
    XorOfShifts(Shl(v, 8), b, 32);
    XorSplit(v, 0, 0, b, 8);
    XorZero(v);
    XorComm(0, b);
    XorZero(b);
    ShlIsTimes(0, 8);
    hide Shl;
    hide Pow2;
  }

  lemma ByteAtTop(b: byte)
    ensures AtTop(b) == Shl(b, 24)
  {
    ShlIsTimes(b, 24);
    Pow2Values();
    hide Shl;
    hide Pow2;
  }

  lemma {:induction false} CrcDivides(data: seq<byte>) returns (q: nat)
    ensures Shl(Value(data), 32) == Xor(Times(q, GENERATOR), OggCrc.OggCrc(data))
    decreases |data|
  {
    hide Times;
    hide Xor;
    hide BitSteps;
    if data == [] {
      q := 0;
      TimesOne(GENERATOR);
      XorZero(0);
      ShlValues();
      hide Shl;
    } else {
      var n := |data| - 1;
      var front, b := data[..n], data[n];
      var c := OggCrc.OggCrc(front);
      var q0 := CrcDivides(front);
      CrcSnoc(front, b);
      assert data == front + [b];
      var q1 := StepsDivide(Xor32(c, AtTop(b)), 8);
      q := Xor(Shl(q0, 8), q1);
      ByteAtTop(b);
      ByteJoins(Value(front), b);
      JoinQuotients(Shl(Value(front), 32), c, b, q0, q1, OggCrc.OggCrc(data));
      assert Value(data) == 256 * Value(front) + b;
    }
  }

  lemma CrcSnoc(front: seq<byte>, b: byte)
    ensures OggCrc.OggCrc(front + [b]) == BitSteps(Xor32(OggCrc.OggCrc(front), AtTop(b)), 8)
  {
    hide BitSteps;
    hide Xor32;
    hide AtTop;
    CrcConcat(0, front, [b]);
    var c := CrcFrom(0, front);
    assert CrcFrom(c, [b]) == CrcFrom(ByteStep(c, b), []);
  }

  lemma JoinQuotients(v: nat, c: U32, b: byte, q0: nat, q1: nat, r: nat)
    requires v == Xor(Times(q0, GENERATOR), c)
    requires Shl(Xor(c, Shl(b, 24)), 8) == Xor(Times(q1, GENERATOR), r)
    ensures Xor(Shl(v, 8), Shl(Shl(b, 24), 8)) == Xor(Times(Xor(Shl(q0, 8), q1), GENERATOR), r)
  {
    hide Times;
    hide Xor;
    hide Shl;
    var t0, t1 := Times(Shl(q0, 8), GENERATOR), Times(q1, GENERATOR);
    TimesShift(q0, GENERATOR, 8);
    XorOfShifts(Times(q0, GENERATOR), c, 8);
    XorAssoc(t0, Shl(c, 8), Shl(Shl(b, 24), 8));
    XorOfShifts(c, Shl(b, 24), 8);
    XorAssoc(t0, t1, r);
    TimesXor(Shl(q0, 8), q1, GENERATOR);
  }

  // ---- It is the only one --------------------------------------------------------------------------

  /** A product with the generator has at least its degree. */
  lemma {:induction false} ProductIsLarge(q: nat)
    requires q > 0
    ensures Times(q, GENERATOR) >= 0x1_0000_0000
    decreases q
  {
    if Half(q) == 0 {
      Halves(q);
      TimesOne(GENERATOR);
    } else {
      ProductIsLarge(Half(q));
      var a := 2 * Times(Half(q), GENERATOR);
      TimesParts(q, GENERATOR);
      HighBitStays(a, Part(q, GENERATOR));
    }
  }

  lemma HighBitStays(a: nat, p: nat)
    requires a >= 0x2_0000_0000 && p < 0x2_0000_0000
    ensures Xor(a, p) >= 0x2_0000_0000
  {
    hide Xor;
    var h, r := a / 0x2_0000_0000, a % 0x2_0000_0000;
    Pow2Values();
    assert Pow2(33) == 2 * Pow2(32);
    ShlIsTimes(h, 33);
    ShlIsTimes(0, 33);
    ShlIsTimes(Xor(h, 0), 33);
    hide Pow2;
    hide Shl;
    XorSplit(h, r, 0, p, 33);
    XorZero(h);
  }

  lemma RemainderIsUnique(n: nat, r: nat, s: nat)
    requires IsRemainder(n, r) && IsRemainder(n, s)
    ensures r == s
  {
    hide Times;
    var q :| n == Xor(Times(q, GENERATOR), r);
    var p :| n == Xor(Times(p, GENERATOR), s);
    var a, b := Times(q, GENERATOR), Times(p, GENERATOR);
    hide Xor;
    XorSwap(a, r, b, s);
    XorSelf(n);
    TimesXor(q, p, GENERATOR);
    Pow2Values();
    XorBound(r, s, 32);
    hide Pow2;
    XorSame(Xor(a, b), Xor(r, s));
    if Xor(q, p) != 0 {
      ProductIsLarge(Xor(q, p));
    } else {
      TimesOne(GENERATOR);
    }
    XorSame(r, s);
  }

  lemma XorSame(a: nat, b: nat)
    ensures Xor(a, b) == 0 <==> a == b
  {
    XorSelf(a);
    if Xor(a, b) == 0 {
      XorCancel(a, b);
      XorComm(0, b);
      XorZero(b);
    }
  }

  /** The checksum is the remainder: of the message with 32 zero bits behind it, and the only one. */
  lemma CrcIsRemainder(data: seq<byte>, r: nat)
    ensures IsRemainder(Value(data) * 0x1_0000_0000, r) <==> r == OggCrc.OggCrc(data)
  {
    var q := CrcDivides(data);
    ShlIsTimes(Value(data), 32);
    Pow2Values();
    hide Times;
    hide Xor;
    hide Shl;
    hide Pow2;
    var n := Value(data) * 0x1_0000_0000;
    assert IsRemainder(n, OggCrc.OggCrc(data));
    if IsRemainder(n, r) {
      RemainderIsUnique(n, r, OggCrc.OggCrc(data));
    }
  }
}

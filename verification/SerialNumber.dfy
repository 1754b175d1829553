/** 16-bit RTP sequence arithmetic (server/internal/rtp/jitter.go) and the unbounded
    indices it stands for. */
module SerialNumber {

  type U16 = x: int | 0 <= x < 65536

  /** The 16-bit number that an unbounded packet index carries on the wire. */
  function Wrap(n: int): U16 {
    n % 65536
  }

  /** Go's conversion of a uint16 to int16. */
  function ToInt16(x: U16): int {
    if x < 32768 then x else x - 65536
  }

  predicate SeqBefore(a: U16, b: U16) {
    a != b && ToInt16(Wrap(a - b)) < 0
  }

  function SeqDistance(a: U16, b: U16): int {
    (b - a + 65536) % 65536
  }

  function SeqNext(s: U16): U16 {
    Wrap(s + 1)
  }

  /** The unbounded index in [base, base + 65536) that q stands for. */
  function Index(base: int, q: U16): (k: int)
    ensures base <= k < base + 65536 && Wrap(k) == q
  {
    base + SeqDistance(Wrap(base), q)
  }

  lemma WrapPeriod(n: int)
    ensures Wrap(n + 65536) == Wrap(n)
  {
  }

  lemma WrapAdd(n: int, d: int)
    ensures Wrap(Wrap(n) + d) == Wrap(n + d)
  {
  }

  /** A residue has one representative in any window of 65536. */
  lemma WrapInjective(m: int, n: int)
    requires -65536 < m - n < 65536 && Wrap(m) == Wrap(n)
    ensures m == n
  {
  }

  lemma IndexOfWrap(base: int, k: int)
    requires base <= k < base + 65536
    ensures Index(base, Wrap(k)) == k
  {
    WrapInjective(Index(base, Wrap(k)), k);
  }

  /** The forward distance is the true difference of any two indices less than 65536 apart. */
  lemma DistanceIsDifference(m: int, n: int)
    requires m <= n < m + 65536
    ensures SeqDistance(Wrap(m), Wrap(n)) == n - m
  {
    IndexOfWrap(m, n);
  }

  /** Half-range comparison agrees with integer order exactly on indices whose difference
      fits an int16. The window is half open: 32768 behind is still before, 32768 ahead is
      not recognised as ahead. */
  lemma BeforeIsLess(m: int, n: int)
    requires -65536 < m - n < 65536
    ensures (SeqBefore(Wrap(m), Wrap(n)) <==> m < n) <==> -32768 <= m - n < 32768
  {
    assert Wrap(Wrap(m) - Wrap(n)) == Wrap(m - n);
  }

  /** Inside any half window the comparison is the order of forward distance from the
      window's start, hence a strict total order (section 3.2 of RFC 1982). */
  lemma BeforeOrdersHalfWindow(start: U16, a: U16, b: U16)
    requires SeqDistance(start, a) < 32768 && SeqDistance(start, b) < 32768
    ensures SeqBefore(a, b) <==> SeqDistance(start, a) < SeqDistance(start, b)
    ensures a == b <==> SeqDistance(start, a) == SeqDistance(start, b)
  {
  }

  /** Beyond half a window the comparison is not an order at all: it has cycles. */
  lemma BeforeHasCycles()
    ensures SeqBefore(0, 20000) && SeqBefore(20000, 40000) && SeqBefore(40000, 0)
  {
  }
}

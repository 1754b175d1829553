/** Indices into a circular buffer: remainders that wrap around at most once. */
module RingIndex {
  /** The source's x % n. */
  function Wrapped(x: nat, n: nat): (r: nat)
    requires n > 0
    ensures r < n
  {
    x % n
  }

  lemma ModOnce(x: nat, n: nat)
    requires x < 2 * n
    ensures Wrapped(x, n) == if x < n then x else x - n
  {
    var q := x / n;
    assert x == n * q + x % n;
    assert q <= 0 || n * q >= n;
    assert q < 2 || n * q >= 2 * n;
    assert q >= 1 || n * q <= 0;
    assert q == 0 || q == 1;
  }

  /** Where the i-th entry from the head is stored. */
  function Slot(head: nat, i: nat, capacity: nat): (r: nat)
    requires head < capacity && i <= capacity
    ensures r < capacity
  {
    if head + i < capacity then head + i else head + i - capacity
  }

  lemma SlotsDiffer(head: nat, i: nat, j: nat, capacity: nat)
    requires head < capacity && i < j < capacity
    ensures Slot(head, i, capacity) != Slot(head, j, capacity)
  {
  }

  lemma SlotStart(head: nat, capacity: nat)
    requires capacity > 0 ==> head < capacity
    ensures capacity > 0 ==> Slot(head, 0, capacity) == head
  {
  }

  lemma NextSlot(head: nat, i: nat, capacity: nat)
    requires head < capacity && i <= capacity
    ensures Wrapped(head + i, capacity) == Slot(head, i, capacity)
  {
    ModOnce(head + i, capacity);
  }

  lemma SlotWraps(head: nat, i: nat, capacity: nat)
    requires head < capacity && i < capacity
    ensures Wrapped(Slot(head, i, capacity) + 1, capacity) == Slot(head, i + 1, capacity)
  {
    ModOnce(Slot(head, i, capacity) + 1, capacity);
  }

  /** Moving the head forward renumbers the entries. */
  lemma SlotShift(head: nat, d: nat, i: nat, capacity: nat)
    requires head < capacity && d + i < capacity
    ensures Slot(Slot(head, d, capacity), i, capacity) == Slot(head, d + i, capacity)
  {
  }
}

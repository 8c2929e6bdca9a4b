/** Positions in a circular buffer. */
module RingIndex {
  import opened Arith

  /** The k-th position after head, wrapping once. */
  function Slot(cap: nat, head: nat, k: nat): (r: nat)
    requires head < cap && k <= cap
    ensures r < cap && r == (head + k) % cap
  {
    if head + k < cap then
      Quotient(head + k, cap, 0, head + k);
      head + k
    else
      Quotient(head + k, cap, 1, head + k - cap);
      head + k - cap
  }
}

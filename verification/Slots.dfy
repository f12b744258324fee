/** Circular tables written in order: write number k (from 1) goes to slot k % size. */
module Slots {
  import opened Modular

  /** The number of the write a slot holds after n writes, 0 for a slot that was never written. */
  function Holder(n: nat, size: nat, slot: nat): nat
    requires size > 0
  {
    if n == 0 then 0 else if n % size == slot then n else Holder(n - 1, size, slot)
  }

  /** A slot still holds write c exactly when fewer than size writes came after it. */
  lemma {:induction false} HolderIsLive(n: nat, size: nat, c: nat)
    requires size > 0 && 1 <= c <= n
    ensures Holder(n, size, c % size) == c <==> n - c < size
    ensures c <= Holder(n, size, c % size) <= n
  {
    if n == c {
    } else if n % size == c % size {
      SameRemainder(n, c, size);
    } else {
      HolderIsLive(n - 1, size, c);
      ShiftBySize(c, size);
      assert n - c != size;
    }
  }
}

// Values shared by the whole model: Java's 32-bit `int`, the id counters,
// the opaque price, and the optional value used for "null" results.
module Basics {

  /** Java's `int`: every id, stock level, bound and machine id is one. */
  newtype int32 = x: int | -0x8000_0000 <= x < 0x8000_0000

  const MaxInt: int32 := 0x7fff_ffff
  const MinInt: int32 := -0x8000_0000

  /** A `double` price, carried as its IEEE 754 bit pattern; the model does
      no arithmetic on prices. */
  type Price = bv64

  datatype Option<T> = None | Some(value: T)

  /** Java's pre-increment `++c` on an `int`: one more, wrapping from the
      largest value to the smallest. */
  function Increment(c: int32): (r: int32)
    ensures c < MaxInt ==> r as int == c as int + 1
    ensures c == MaxInt ==> r == MinInt
  {
    if c == MaxInt then MinInt else c + 1
  }

  /** The ids handed out by `n` successive allocations from a counter that
      stands at `start`. */
  function Allocations(start: int32, n: nat): (ids: seq<int32>)
    decreases n
  {
    if n == 0 then [] else [Increment(start)] + Allocations(Increment(start), n - 1)
  }

  /** From a counter at `start`, the k-th allocation (counting from 0) yields
      start + k + 1, as long as no wrap-around happens. */
  lemma {:induction false} AllocationsCount(start: int32, n: nat)
    requires start as int + n <= MaxInt as int
    ensures |Allocations(start, n)| == n
    ensures forall k :: 0 <= k < n ==> Allocations(start, n)[k] as int == start as int + k + 1
    decreases n
  {
    if n > 0 {
      AllocationsCount(Increment(start), n - 1);
    }
  }

  /** A fresh counter (0) hands out exactly 1, 2, ..., n, with no repeats,
      for any n up to the largest `int`. */
  lemma AllocationsFromZero(n: nat)
    requires n <= MaxInt as int
    ensures |Allocations(0, n)| == n
    ensures forall k :: 0 <= k < n ==> Allocations(0, n)[k] as int == k + 1
    ensures forall j, k :: 0 <= j < k < n ==> Allocations(0, n)[j] != Allocations(0, n)[k]
  {
    AllocationsCount(0, n);
  }
}

/**
 * The allocation workload of the heap-profile program: `count` buffers of random length,
 * all appended to one ledger, and the first one returned.
 */
module Memory {
  import opened Io

  /** `const count = 100000` */
  const Count: nat := 100000

  /** The argument of `rand.Intn`: Go's `2^14` is bitwise XOR, so it is 2 XOR 14. */
  const IntnBound: int := ((2 as bv16) ^ (14 as bv16)) as int

  /**
   * The random source: rnd(k, n) is what the k-th call of `rand.Intn(n)` returns, which is
   * somewhere in [0, n) for every n > 0.
   */
  ghost predicate IsIntnOracle(rnd: (nat, int) -> int)
  {
    forall k: nat, n: int :: 0 < n ==> 0 <= rnd(k, n) < n
  }

  /** `makeByteSlice()` as the k-th call: a zero-filled buffer of length `rand.Intn(2^14)`. */
  function MakeByteSlice(rnd: (nat, int) -> int, k: nat): (b: seq<byte>)
    requires IsIntnOracle(rnd)
    ensures 0 <= |b| < IntnBound
    ensures forall i :: 0 <= i < |b| ==> b[i] == 0
  {
    seq(rnd(k, IntnBound), _ => 0)
  }

  /** The bound the code computes is 12, not the 16384 its doc comment promises. */
  lemma IntnBoundIsTwelve()
    ensures IntnBound == 12
    ensures IntnBound != 16384
  {
  }

  /**
   * `allocate()`: append `count` fresh buffers to the ledger x and return x[0]; entry k of the
   * ledger is the k-th buffer made.
   */
  method Allocate(rnd: (nat, int) -> int) returns (first: seq<byte>, ghost ledger: seq<seq<byte>>)
    requires IsIntnOracle(rnd)
    ensures |ledger| == Count
    ensures forall k :: 0 <= k < Count ==> ledger[k] == MakeByteSlice(rnd, k)
    ensures first == ledger[0] && |first| < 12
  {
    var x: seq<seq<byte>> := [];
    for i := 0 to Count
      invariant |x| == i
      invariant forall k :: 0 <= k < i ==> x[k] == MakeByteSlice(rnd, k)
    {
      x := x + [MakeByteSlice(rnd, i)];
    }
    first := x[0];
    ledger := x;
  }
}

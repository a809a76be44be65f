/** `Sum` of the escape-analysis program: fill an array with 1..100, then add it up. */
module Escape {

  /** The sum of the elements of s. */
  function SumOf(s: seq<int>): (total: int)
    decreases |s|
  {
    if s == [] then 0 else SumOf(s[..|s| - 1]) + s[|s| - 1]
  }

  /** The sequence 1, 2, ..., n. */
  function OneTo(n: nat): (s: seq<int>)
  {
    seq(n, i => i + 1)
  }

  /** Gauss: the sum of 1..n is n(n+1)/2. */
  lemma {:induction false} SumOfOneTo(n: nat)
    ensures 2 * SumOf(OneTo(n)) == n * (n + 1)
  {
    if n > 0 {
      assert OneTo(n)[..n - 1] == OneTo(n - 1);
      SumOfOneTo(n - 1);
    }
  }

  /** `numbers := make([]int, count)` and the loop storing `i + 1` at every index i. */
  method Fill(count: nat) returns (numbers: array<int>)
    ensures fresh(numbers)
    ensures numbers[..] == OneTo(count)
  {
    numbers := new int[count];
    for i := 0 to count
      invariant forall k :: 0 <= k < i ==> numbers[k] == k + 1
    {
      numbers[i] := i + 1;
    }
  }

  /** `Sum()`: 1 + 2 + ... + 100, every addition making the sum strictly larger. */
  method Sum() returns (sum: int)
    ensures sum == 5050
  {
    var count := 100;
    var numbers := Fill(count);
    sum := 0;
    for j := 0 to count
      invariant sum == SumOf(numbers[..j])
      invariant sum >= j
    {
      assert numbers[..j + 1][..j] == numbers[..j];
      assert numbers[j] == j + 1;
      sum := sum + numbers[j];
    }
    assert numbers[..count] == OneTo(count);
    SumOfOneTo(count);
  }
}

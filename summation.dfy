/**
 * The three ways of computing 1 + 2 + ... + n from client/src/utils.ts.
 * Every variant first runs the same guard, which rejects a negative n with one
 * fixed message; JavaScript's other rejection, of a non-integral n, cannot arise
 * for a Dafny `int`.
 */
module Summation {
  import opened Wrappers

  /** The message of the error `assertValidN` throws. */
  const InvalidNMessage: string := "n must be a non-negative integer"

  /** `assertValidN`: passes exactly when n is non-negative, else fails with `InvalidNMessage`. */
  function AssertValidN(n: int): (r: Result<()>)
    ensures r.Ok? <==> n >= 0
    ensures r.Err? ==> r.message == InvalidNMessage
  {
    if n < 0 then Err(InvalidNMessage) else Ok(())
  }

  /** The product of two consecutive naturals is even, so the closed form divides exactly. */
  lemma {:induction false} ProductOfConsecutiveIsEven(n: nat)
    ensures (n * (n + 1)) % 2 == 0
  {
    if n > 0 {
      ProductOfConsecutiveIsEven(n - 1);
      assert n * (n + 1) == (n - 1) * n + 2 * n;
    }
  }

  /**
   * `sum_to_n_b`, the closed form n(n+1)/2. JavaScript divides as a real; the
   * third postcondition says the integer division here loses nothing, so the
   * two agree.
   */
  function SumToNB(n: int): (r: Result<int>)
    ensures r.Ok? <==> n >= 0
    ensures r.Err? ==> r.message == InvalidNMessage
    ensures r.Ok? ==> 2 * r.value == n * (n + 1)
  {
    match AssertValidN(n)
    case Err(m) => Err(m)
    case Ok(_) =>
      ProductOfConsecutiveIsEven(n);
      Ok(n * (n + 1) / 2)
  }

  /** `sum_to_n_c`: 0 for n = 0, otherwise n plus the sum up to n - 1. */
  function SumToNC(n: int): (r: Result<int>)
    decreases if n < 0 then 0 else n
    ensures r.Ok? <==> n >= 0
    ensures r.Err? ==> r.message == InvalidNMessage
  {
    match AssertValidN(n)
    case Err(m) => Err(m)
    case Ok(_) =>
      if n == 0 then Ok(0)
      else
        match SumToNC(n - 1)
        case Err(m) => Err(m)
        case Ok(s) => Ok(n + s)
  }

  /** The recursion computes the closed form for every n, and rejects exactly what it rejects. */
  lemma {:induction false} SumToNCAgreesWithClosedForm(n: int)
    ensures SumToNC(n) == SumToNB(n)
  {
    if n > 0 {
      SumToNCAgreesWithClosedForm(n - 1);
      var prev := SumToNB(n - 1).value;
      var cur := SumToNB(n).value;
      assert 2 * prev == (n - 1) * n;
      assert 2 * cur == n * (n + 1);
      assert n * (n + 1) == (n - 1) * n + 2 * n;
      assert cur == prev + n;
    }
  }

  /** `sum_to_n_a`: accumulate 1, 2, ..., n in a loop; the result is the closed form. */
  method SumToNA(n: int) returns (r: Result<int>)
    ensures r == SumToNB(n)
  {
    var valid := AssertValidN(n);
    if valid.Err? {
      return Err(valid.message);
    }
    var sum := 0;
    var i := 1;
    while i <= n
      invariant 1 <= i <= n + 1
      invariant 2 * sum == (i - 1) * i
    {
      sum := sum + i;
      i := i + 1;
    }
    r := Ok(sum);
  }

  /** Every variant maps 0 to 0. */
  lemma SumOfZeroIsZero()
    ensures SumToNB(0) == Ok(0) && SumToNC(0) == Ok(0)
  {
  }
}

/** Integer division, where the solver needs to be told. */
module Arithmetic {
  lemma {:induction false} Beyond(d: int, k: int)
    requires k > 0
    ensures d >= 1 ==> d * k >= k
    ensures d <= -1 ==> d * k <= -k
  {
  }

  /** Quotient and remainder are determined by what they multiply out to. */
  lemma {:induction false} Quotient(n: int, k: int, q: int, r: int)
    requires k > 0 && 0 <= r < k && n == q * k + r
    ensures n / k == q && n % k == r
  {
    var d := n / k - q;
    assert n == (n / k) * k + n % k;
    assert d * k == r - n % k;
    Beyond(d, k);
  }
}

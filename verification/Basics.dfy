/** Types and conversions shared by the models. */
module Basics {

  datatype Option<+T> = None | Some(value: T)

  type byte = x: int | 0 <= x < 256

  /** A wider integer cut down to an int. */
  function ToInt(n: int): (r: int)
    ensures -2147483648 <= r <= 2147483647
  {
    var m := n % 4294967296;
    if m > 2147483647 then m - 4294967296 else m
  }

  /** Quotient and remainder are the only ones. */
  lemma {:induction false} Divided(x: int, n: nat, q: int, r: nat)
    requires r < n && x == q * n + r
    ensures x / n == q && x % n == r
  {
    var p, s := x / n, x % n;
    assert x == p * n + s;
    OneQuotient(n, p - q, r - s, p * n, q * n);
  }

  lemma {:induction false} OneQuotient(n: nat, d: int, e: int, a: int, b: int)
    requires 0 < e + n && e < n && e == a - b == d * n
    ensures d == 0 && e == 0
  {}
}

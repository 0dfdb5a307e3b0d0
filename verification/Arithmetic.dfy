/** Products, quotients and rising sequences, for the modules that count and index. */
module Arithmetic {

  ghost predicate Increasing(s: seq<nat>) {
    forall j, k :: 0 <= j < k < |s| ==> s[j] < s[k]
  }

  function Repeat<T>(x: T, n: nat): (r: seq<T>)
    ensures |r| == n
  {
    if n == 0 then [] else Repeat(x, n - 1) + [x]
  }

  lemma NonNegativeProduct(a: nat, b: nat)
    ensures a * b >= 0
  {
  }

  lemma MulMono(a: int, b: int, d: int)
    requires d >= 0 && a <= b
    ensures a * d <= b * d
  {
    NonNegativeProduct(b - a, d);
    assert (b - a) * d == b * d - a * d;
  }

  lemma OneMore(n: int, d: int)
    ensures n * d == (n - 1) * d + d
  {
  }

  lemma MulLess(a: int, b: int, d: int)
    requires d >= 0 && a < b
    ensures a * d + d <= b * d
  {
    OneMore(a + 1, d);
    MulMono(a + 1, b, d);
  }

  lemma QuotientParts(n: int, d: int) returns (q: int, rem: int)
    requires d > 0
    ensures q == n / d && rem == n % d
    ensures n == q * d + rem && 0 <= rem < d
  {
    q, rem := n / d, n % d;
  }

  lemma QuotientUnique(n: int, d: int, q: int, rem: int)
    requires d > 0 && n == q * d + rem && 0 <= rem < d
    ensures n / d == q && n % d == rem
  {
    var q', rem' := QuotientParts(n, d);
    if q < q' {
      MulLess(q, q', d);
    } else if q' < q {
      MulLess(q', q, d);
    }
  }
}

/** What several modules share. */
module Common {

  datatype Option<+T> = None | Some(value: T)

  predicate NoDup(s: seq<nat>) {
    forall a, b :: 0 <= a < b < |s| ==> s[a] != s[b]
  }

  /** A grace period is over: none of the read sections it waits out is open any more. */
  predicate GraceOver(waits: set<nat>, open: set<nat>) {
    waits !! open
  }

  function Pow2(b: nat): (p: nat)
    ensures p > 0
  {
    if b == 0 then 1 else 2 * Pow2(b - 1)
  }

  lemma {:induction false} NextMultiple(a: nat, b: nat, n: nat)
    requires a < b
    ensures a * n + n <= b * n
  {
    assert b * n == (b - 1) * n + n;
    if a < b - 1 {
      NextMultiple(a, b - 1, n);
    }
  }

  /** Division finds the quotient of any quotient and remainder. */
  lemma Quotient(a: nat, d: nat, q: nat, r: nat)
    requires r < d && a == q * d + r
    ensures a / d == q && a % d == r
  {
    if a / d < q {
      NextMultiple(a / d, q, d);
    } else if q < a / d {
      NextMultiple(q, a / d, d);
    }
  }
}

/**
  What several parts of the model share: two constants, sequences without
  repetition, and remainders of counters that wrap.
 */
module Base {
  const MAXOPBLOCKS: nat := 10
  const UINT: nat := 0x1_0000_0000   // the range of uint

  predicate Distinct<T(==)>(s: seq<T>) { forall i, j :: 0 <= i < j < |s| ==> s[i] != s[j] }

  // -------------------------------------------------------------- remainders

  lemma {:induction false} NextMultiple(n: nat, a: nat, b: nat)
    requires a < b
    ensures n * a + n <= n * b
  {
    var c := b - a - 1;
    assert n * b == n * (a + 1 + c) == n * a + n + n * c;
  }

  /** Division with remainder has one answer. */
  lemma {:induction false} IsRemainder(n: nat, q: nat, r: nat, x: nat)
    requires x == n * q + r && r < n
    ensures x / n == q && x % n == r
  {
    var k, s := x / n, x % n;
    assert x == n * k + s;
    if q < k {
      NextMultiple(n, q, k);
    } else if k < q {
      NextMultiple(n, k, q);
    }
  }

  /** A remainder does not see whole multiples. */
  lemma {:induction false} SameRemainder(n: nat, m: nat, r: nat)
    requires n > 0
    ensures (n * m + r) % n == r % n
  {
    var k, s := r / n, r % n;
    assert r == n * k + s;
    assert n * m + n * k == n * (m + k);
    IsRemainder(n, m + k, s, n * m + r);
  }

  /** A wrapped counter that goes on by d. */
  lemma {:induction false} WrapBy(n: nat, b: nat, d: nat)
    requires d < n
    ensures (b + d) % n == (if b % n + d < n then b % n + d else b % n + d - n)
  {
    var k, s := b / n, b % n;
    assert b == n * k + s;
    if s + d < n {
      IsRemainder(n, k, s + d, b + d);
    } else {
      assert n * k + n == n * (k + 1);
      IsRemainder(n, k + 1, s + d - n, b + d);
    }
  }

  lemma {:induction false} WrapNext(n: nat, a: nat)
    requires n > 1
    ensures (a % n + 1) % n == (a + 1) % n
  {
    var s := a % n;
    WrapBy(n, a, 1);
    if s + 1 < n {
      IsRemainder(n, 0, s + 1, s + 1);
    } else {
      IsRemainder(n, 1, 0, s + 1);
    }
  }

  /** If the counter's range is a multiple of the ring's, the place can be taken from the wrapped counter. */
  lemma {:induction false} WrapPlace(n: nat, k: nat, a: nat)
    requires n > 0 && k > 0
    ensures a % (n * k) % n == a % n
  {
    var u := n * k;
    var q, r := a / u, a % u;
    assert a == u * q + r;
    assert u * q == n * (k * q);
    SameRemainder(n, k * q, r);
  }
}

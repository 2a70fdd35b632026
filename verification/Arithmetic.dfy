/** Quotients and remainders. */
module Arithmetic {
  lemma SmallMultiple(n: int, d: int)
    requires n >= 1 && -n < n * d < n
    ensures d == 0
  {}

  lemma LessThanOne(n: int, d: int)
    requires n >= 1 && n * d < n
    ensures d <= 0
  {}

  lemma ModUnique(x: nat, n: nat, q: nat, m: nat)
    requires n >= 1 && m < n && x == n * q + m
    ensures x % n == m
  {
    var d := x / n - q;
    assert n * d == m - x % n;
    SmallMultiple(n, d);
  }

  lemma ModNext(x: nat, n: nat)
    requires n >= 1
    ensures (x + 1) % n == if x % n + 1 == n then 0 else x % n + 1
    ensures (x + 1) % n != 0 && x + 1 >= n ==> x >= n
  {
    var q, m := x / n, x % n;
    assert x == n * q + m;
    if m + 1 == n {
      assert x + 1 == n * (q + 1);
      ModUnique(x + 1, n, q + 1, 0);
    } else {
      ModUnique(x + 1, n, q, m + 1);
    }
    if x + 1 == n {
      ModUnique(x + 1, n, 1, 0);
    }
  }

  lemma Distribute(n: int, p: int, q: int, s: int)
    ensures n * (p - q - s) == n * p - n * q - n * s
  {}

  lemma NextQuotient(x: nat, n: nat)
    requires n > 0
    ensures (x + 1) % n == if x % n + 1 == n then 0 else x % n + 1
    ensures (x + 1) / n == x / n + if x % n + 1 == n then 1 else 0
  {
    ModNext(x, n);
    var q, r := (x + 1) / n, (x + 1) % n;
    assert x + 1 == n * q + r && x == n * (x / n) + x % n;
    var step := if x % n + 1 == n then 1 else 0;
    assert n * (q - x / n - step) == n * q - n * (x / n) - n * step by { Distribute(n, q, x / n, step); }
    SmallMultiple(n, q - x / n - step);
  }

  lemma SameResidue(c: nat, m: nat, n: nat, k: nat)
    requires n > 0 && k < n
    ensures (c + m) % n == k <==> m % n == (k - c) % n
  {
    var q, d := (k - c) / n, (k - c) % n;
    assert k - c == n * q + d;
    var p, r := m / n, m % n;
    assert m == n * p + r;
    var s, x := (c + m) / n, (c + m) % n;
    assert c + m == n * s + x;
    assert n * (p - q - s) == n * p - n * q - n * s by { Distribute(n, p, q, s); }
    assert n * (p - q - s) == x - k + d - r;
    if x == k {
      SmallMultiple(n, p - q - s);
    } else if r == d {
      SmallMultiple(n, p - q - s);
    }
  }
}

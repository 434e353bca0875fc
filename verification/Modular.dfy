/** Residues: what it takes to push `% m` through sums and products. */
module Modular {

  lemma {:induction false} AddMultiple(x: int, k: int, m: nat)
    requires m > 0
    ensures (x + k * m) % m == x % m
    decreases if k < 0 then -k else k
  {
    if k > 0 {
      AddMultiple(x, k - 1, m);
      AddOnce(x + (k - 1) * m, m);
      assert x + k * m == x + (k - 1) * m + m;
    } else if k < 0 {
      AddMultiple(x, k + 1, m);
      AddOnce(x + k * m, m);
      assert x + (k + 1) * m == x + k * m + m;
    }
  }

  lemma AddOnce(x: int, m: nat)
    requires m > 0
    ensures (x + m) % m == x % m
  {
    var q := x / m;
    assert x == q * m + x % m;
    assert x + m == (q + 1) * m + x % m;
    Unique(x + m, q + 1, x % m, m);
  }

  /** Quotient and remainder are determined. */
  lemma Unique(x: int, q: int, r: int, m: nat)
    requires m > 0 && 0 <= r < m && x == q * m + r
    ensures x % m == r && x / m == q
  {
    var d := q - x / m;
    assert x == (x / m) * m + x % m;
    assert d * m == x % m - r;
    NoMultiple(d, m);
  }

  lemma NoMultiple(d: int, m: nat)
    requires m > 0
    ensures d >= 1 ==> d * m >= m
    ensures d <= -1 ==> d * m <= 0 - m
  {
  }

  /** Equal residues. */
  predicate Same(x: int, y: int, m: nat)
    requires m > 0
  {
    x % m == y % m
  }

  lemma Reduced(x: int, m: nat)
    requires m > 0
    ensures Same(x % m, x, m)
  {
    Unique(x % m, 0, x % m, m);
  }

  lemma SameMultiple(x: int, y: int, m: nat) returns (k: int)
    requires m > 0 && Same(x, y, m)
    ensures x == y + k * m
  {
    k := x / m - y / m;
    assert x == (x / m) * m + x % m && y == (y / m) * m + y % m;
  }

  lemma OffByMultiple(a: int, x: int, k: int, m: nat)
    requires m > 0 && a == x + k * m
    ensures Same(a, x, m)
  {
    AddMultiple(x, k, m);
  }

  lemma SameAdd(a: int, b: int, x: int, y: int, m: nat)
    requires m > 0 && Same(a, x, m) && Same(b, y, m)
    ensures Same(a + b, x + y, m) && Same(a - b, x - y, m)
  {
    hide Same;
    var j := SameMultiple(a, x, m);
    var k := SameMultiple(b, y, m);
    Distribute(j, k, m);
    OffByMultiple(a + b, x + y, j + k, m);
    OffByMultiple(a - b, x - y, j - k, m);
  }

  lemma Distribute(j: int, k: int, m: nat)
    ensures (j + k) * m == j * m + k * m && (j - k) * m == j * m - k * m
  {
  }

  lemma SameMul(a: int, b: int, x: int, y: int, m: nat)
    requires m > 0 && Same(a, x, m) && Same(b, y, m)
    ensures Same(a * b, x * y, m)
  {
    hide Same;
    var j := SameMultiple(a, x, m);
    var k := SameMultiple(b, y, m);
    Expand(x, j, y, k, m);
    OffByMultiple(a * b, x * y, x * k + j * y + j * m * k, m);
  }

  lemma Expand(x: int, j: int, y: int, k: int, m: nat)
    ensures (x + j * m) * (y + k * m) == x * y + (x * k + j * y + j * m * k) * m
  {
    assert (x + j * m) * (y + k * m) == x * y + x * (k * m) + (j * m) * y + (j * m) * (k * m);
    assert x * (k * m) == (x * k) * m && (j * m) * y == (j * y) * m && (j * m) * (k * m) == (j * m * k) * m;
  }
}

/** Remainders, for the ring indices of the thread pool and of the semaphore buffer. */
module Modular {

  lemma {:induction false} AddMultiple(x: int, k: int, m: int)
    requires m > 0
    ensures (x + k * m) % m == x % m
    decreases if k < 0 then -k else k
  {
    if k > 0 {
      AddMultiple(x, k - 1, m);
      assert x + k * m == (x + (k - 1) * m) + m;
      StepUp(x + (k - 1) * m, m);
    } else if k < 0 {
      AddMultiple(x, k + 1, m);
      assert x + (k + 1) * m == (x + k * m) + m;
      StepUp(x + k * m, m);
    }
  }

  lemma QuotientIsUnique(q: int, r: int, q': int, r': int, m: int)
    requires m > 0 && 0 <= r < m && 0 <= r' < m
    requires q * m + r == q' * m + r'
    ensures q == q' && r == r'
  {
    if q > q' {
      AtLeastOnce(q, q', m);
    } else if q < q' {
      AtLeastOnce(q', q, m);
    }
  }

  lemma {:induction false} AtLeastOnce(k: int, k': int, m: int)
    requires m > 0 && k > k'
    ensures k * m >= k' * m + m
    decreases k - k'
  {
    assert k * m == (k - 1) * m + m;
    if k - 1 > k' {
      AtLeastOnce(k - 1, k', m);
    }
  }

  lemma StepUp(x: int, m: int)
    requires m > 0
    ensures (x + m) % m == x % m
  {
    QuotientIsUnique((x + m) / m, (x + m) % m, x / m + 1, x % m, m);
  }

  lemma ModOfSum(a: int, b: int, m: int)
    requires m > 0
    ensures (a % m + b) % m == (a + b) % m
  {
    assert a + b == (a % m + b) + (a / m) * m;
    AddMultiple(a % m + b, a / m, m);
  }

  // Two offsets from one base fall on the same cell exactly when they agree modulo the size.
  lemma SameCell(base: int, i: int, j: int, m: int)
    requires m > 0
    ensures (base + i) % m == (base + j) % m <==> i % m == j % m
  {
    if i % m == j % m {
      ModOfSum(i, base, m);
      ModOfSum(j, base, m);
    }
    if (base + i) % m == (base + j) % m {
      ModOfSum(base + i, -base, m);
      ModOfSum(base + j, -base, m);
    }
  }

  // Fewer than m consecutive indices never share a cell.
  lemma DistinctCells(i: int, j: int, m: int)
    requires m > 0 && i < j < i + m
    ensures i % m != j % m
  {
    SameCell(i, 0, j - i, m);
  }
}

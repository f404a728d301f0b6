/** Facts about quotients and remainders that the other modules share. */
module Numbers {

  lemma Multiple(n: int, d: int)
    requires n > 0
    ensures d >= 1 ==> n * d >= n
    ensures d <= -1 ==> n * d <= -n
  {}

  /** A division is determined by its equation. */
  lemma DivUnique(x: int, n: int, q: int, r: int)
    requires n > 0 && 0 <= r < n && x == n * q + r
    ensures x / n == q && x % n == r
  {
    assert x == n * (x / n) + x % n;
    var d := x / n - q;
    assert n * d == r - x % n;
    Multiple(n, d);
  }

  /** Two numbers less than n apart leave the same remainder only when they are equal. */
  lemma SameRemainder(a: int, b: int, n: int)
    requires n > 0 && a <= b < a + n && a % n == b % n
    ensures a == b
  {
    assert a == n * (a / n) + a % n && b == n * (b / n) + b % n;
    var d := b / n - a / n;
    assert b - a == n * d;
    Multiple(n, d);
  }

  /** Counting up modulo n. */
  lemma NextRemainder(a: int, n: int)
    requires n > 0
    ensures (a + 1) % n == if a % n + 1 == n then 0 else a % n + 1
  {
    assert a == n * (a / n) + a % n;
    if a % n + 1 == n {
      assert a + 1 == n * (a / n + 1) + 0;
      DivUnique(a + 1, n, a / n + 1, 0);
    } else {
      DivUnique(a + 1, n, a / n, a % n + 1);
    }
  }

  lemma SameRemainderExactly(a: int, b: int, n: int)
    requires n > 0
    ensures a % n == b % n <==> (b - a) % n == 0
  {
    assert a == n * (a / n) + a % n && b == n * (b / n) + b % n;
    var d := b / n - a / n;
    assert b - a == n * d + (b % n - a % n);
    if b % n >= a % n {
      DivUnique(b - a, n, d, b % n - a % n);
    } else {
      assert n * (d - 1) == n * d - n;
      DivUnique(b - a, n, d - 1, b % n - a % n + n);
    }
  }

  lemma NextLap(a: int, n: int)
    requires n > 0
    ensures (a + n) % n == a % n
  {
    assert a + n == n * (a / n + 1) + a % n;
    DivUnique(a + n, n, a / n + 1, a % n);
  }

  /** Every number has a namesake (same remainder) in any window of n numbers above it. */
  lemma Namesake(a: int, low: int, n: int) returns (b: int)
    requires n > 0 && a <= low
    ensures a <= b && low <= b < low + n && b % n == a % n
    decreases low - a
  {
    if a + n <= low {
      NextLap(a, n);
      b := Namesake(a + n, low, n);
    } else if a == low {
      b := a;
    } else {
      NextLap(a, n);
      b := a + n;
    }
  }

  lemma RoundDown(v: int, a: int)
    requires a > 0
    ensures (v - v % a) % a == 0 && v - a < v - v % a <= v
  {
    assert v - v % a == a * (v / a) + 0;
    DivUnique(v - v % a, a, v / a, 0);
  }

  lemma RoundUp(v: int, a: int)
    requires a > 0
    ensures var u := v + (a - 1);
      u - u % a == if v % a == 0 then v else v - v % a + a
  {
    var u := v + (a - 1);
    assert v == a * (v / a) + v % a;
    if v % a == 0 {
      DivUnique(u, a, v / a, a - 1);
    } else {
      assert a * (v / a + 1) == a * (v / a) + a;
      DivUnique(u, a, v / a + 1, v % a - 1);
    }
  }
}

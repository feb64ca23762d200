// Exponential backoff with jitter, in exact reals.  `u` is the clock's nanoseconds modulo
// 1000, from which the jitter of one attempt is drawn; it may differ at every attempt.

module Backoff {

  function Pow2(n: nat): (r: real)
    ensures r >= 1.0
  {
    if n == 0 then 1.0 else 2.0 * Pow2(n - 1)
  }

  // 1 + 0.1 * (2 * u / 1000 - 1): between 0.9 and 1.0998.
  function JitterFactor(u: nat): real {
    1.0 + 0.1 * (2.0 * (u as real) / 1000.0 - 1.0)
  }

  // base * 2^(attempt-1)
  function Scaled(base: int, attempt: nat): real
    requires attempt >= 1
  {
    base as real * Pow2(attempt - 1)
  }

  function Uncapped(base: int, attempt: nat, u: nat): real
    requires attempt >= 1
  {
    Scaled(base, attempt) * JitterFactor(u)
  }

  function Capped(base: int, attempt: int, u: nat): real {
    if attempt <= 0 then base as real
    else if Uncapped(base, attempt, u) > (60 * base) as real then (60 * base) as real
    else Uncapped(base, attempt, u)
  }

  // Conversion of a float to an integer duration truncates toward zero.
  function Truncate(r: real): int {
    if r >= 0.0 then r.Floor else -((-r).Floor)
  }

  function Delay(base: int, attempt: int, u: nat): int {
    Truncate(Capped(base, attempt, u))
  }

  lemma JitterBounds(u: nat)
    requires u < 1000
    ensures 0.9 <= JitterFactor(u) <= 1.0998
  {
  }

  lemma {:induction false} Pow2Grows(a: nat, b: nat)
    requires a <= b
    ensures Pow2(a) <= Pow2(b)
    ensures a < b ==> 2.0 * Pow2(a) <= Pow2(b)
    decreases b - a
  {
    if a + 1 <= b { Pow2Grows(a + 1, b); }
  }

  lemma Product(x: real, y: real, lo: real, hi: real)
    requires x >= 0.0 && lo <= y <= hi
    ensures x * lo <= x * y <= x * hi
  {
    assert x * (y - lo) >= 0.0 && x * (hi - y) >= 0.0;
  }

  lemma ScaledBounds(base: int, attempt: nat)
    requires attempt >= 1 && base > 0
    ensures Scaled(base, attempt) >= base as real
  {
    Product(base as real, Pow2(attempt - 1), 1.0, Pow2(attempt - 1));
  }

  // The jittered delay lies in a band around the exponential one.
  lemma UncappedBounds(base: int, attempt: nat, u: nat)
    requires attempt >= 1 && base > 0 && u < 1000
    ensures var x := Scaled(base, attempt);
      x >= base as real && 0.9 * x <= Uncapped(base, attempt, u) <= 1.0998 * x
  {
    JitterBounds(u);
    ScaledBounds(base, attempt);
    hide Scaled, JitterFactor;
    Banded(Scaled(base, attempt), JitterFactor(u), Uncapped(base, attempt, u));
  }

  lemma Banded(x: real, j: real, r: real)
    requires x >= 0.0 && 0.9 <= j <= 1.0998 && r == x * j
    ensures 0.9 * x <= r <= 1.0998 * x
  {
    var d, e := j - 0.9, 1.0998 - j;
    Product(x, d, 0.0, d);
    Product(x, e, 0.0, e);
    assert x * d == r - 0.9 * x;
    assert x * e == 1.0998 * x - r;
  }

  // The delay is positive and never above 60 times the base delay.
  lemma DelayIsBounded(base: int, attempt: nat, u: nat)
    requires attempt >= 1 && base > 0 && u < 1000
    ensures 0.0 < Capped(base, attempt, u) <= (60 * base) as real
    ensures 0 <= Delay(base, attempt, u) <= 60 * base
    ensures base >= 2 ==> Delay(base, attempt, u) >= 1
    ensures Delay(base, attempt, u) as real <= Capped(base, attempt, u) < Delay(base, attempt, u) as real + 1.0
  {
    UncappedBounds(base, attempt, u);
    hide Scaled, Uncapped;
  }

  // The first retry waits the base delay, less a tenth and more by up to nearly a fifth of it
  // as the jitter draw says; without an attempt there is no jitter.
  lemma FirstDelay(base: int, u: nat)
    requires base > 0 && u < 1000
    ensures Capped(base, 1, u) == base as real * (0.9 + 0.0002 * u as real)
    ensures forall attempt :: attempt <= 0 ==> Delay(base, attempt, u) == base
  {
    UncappedBounds(base, 1, u);
    assert Scaled(base, 1) == base as real;
    assert JitterFactor(u) == 0.9 + 0.0002 * u as real;
  }

  // Every further attempt doubles the delay of the same jitter, up to the cap.
  lemma DelayDoubles(base: int, attempt: nat, u: nat)
    requires attempt >= 1 && base > 0 && u < 1000
    ensures var d, cap := Capped(base, attempt, u), 60.0 * base as real;
      Capped(base, attempt + 1, u) == if 2.0 * d > cap then cap else 2.0 * d
  {
    var x, j := Scaled(base, attempt), JitterFactor(u);
    assert Scaled(base, attempt + 1) == 2.0 * x by {
      assert Pow2(attempt) == 2.0 * Pow2(attempt - 1);
      Twice(base as real, Pow2(attempt - 1));
    }
    hide Scaled, JitterFactor;
    Twice(j, x);
    assert Uncapped(base, attempt + 1, u) == 2.0 * Uncapped(base, attempt, u);
    hide Uncapped;
  }

  lemma Twice(x: real, p: real)
    ensures x * (2.0 * p) == 2.0 * (x * p) && (2.0 * p) * x == 2.0 * (p * x)
  {
  }

  // Later attempts never wait less, whatever the jitter at each of them.
  lemma DelayIsMonotone(base: int, a: nat, u: nat, b: nat, v: nat)
    requires 1 <= a < b && base > 0 && u < 1000 && v < 1000
    ensures Capped(base, a, u) <= Capped(base, b, v)
    ensures Delay(base, a, u) <= Delay(base, b, v)
  {
    UncappedBounds(base, a, u);
    UncappedBounds(base, b, v);
    ScaledDoubles(base, a, b);
    hide Scaled, Uncapped;
  }

  lemma ScaledDoubles(base: int, a: nat, b: nat)
    requires 1 <= a < b && base > 0
    ensures 2.0 * Scaled(base, a) <= Scaled(base, b)
  {
    Pow2Grows(a - 1, b - 1);
    hide Pow2;
    Doubling(base as real, Pow2(a - 1), Pow2(b - 1));
  }

  lemma Doubling(x: real, p: real, q: real)
    requires x >= 0.0 && p >= 0.0 && 2.0 * p <= q
    ensures 2.0 * (x * p) <= x * q
  {
    Product(x, 2.0 * p, 0.0, q);
    assert x * (2.0 * p) == 2.0 * (x * p);
  }

  // Scaled values at the attempts around the cap.
  lemma ScaledAt(base: int)
    requires base > 0
    ensures Scaled(base, 6) == 32.0 * base as real
    ensures Scaled(base, 7) == 64.0 * base as real
    ensures Scaled(base, 8) == 128.0 * base as real
  {
    assert Pow2(3) == 8.0;
    assert Pow2(5) == 4.0 * Pow2(3);
    assert Pow2(7) == 4.0 * Pow2(5);
  }

  // The cap is reached from attempt 8 on whatever the jitter, and never before attempt 7.
  lemma CapIsReached(base: int, attempt: nat, u: nat)
    requires attempt >= 1 && base > 0 && u < 1000
    ensures attempt >= 8 ==> Capped(base, attempt, u) == (60 * base) as real && Delay(base, attempt, u) == 60 * base
    ensures attempt <= 6 ==> Capped(base, attempt, u) < (60 * base) as real
  {
    UncappedBounds(base, attempt, u);
    ScaledAt(base);
    if attempt > 8 { ScaledDoubles(base, 8, attempt); }
    if attempt < 6 { ScaledDoubles(base, attempt, 6); }
    hide Scaled, Uncapped;
  }

  // At attempt 7 the jitter decides: the cap applies exactly from u = 188 on.
  lemma SeventhAttempt(base: int, u: nat)
    requires base > 0 && u < 1000
    ensures Capped(base, 7, u) == (60 * base) as real <==> u >= 188
  {
    ScaledAt(base);
    hide Scaled;
    var x, j := base as real, JitterFactor(u);
    assert Uncapped(base, 7, u) == (64.0 * x) * j;
    Reorder(x, j);
    if u >= 188 {
      Product(x, 64.0 * j, 60.0, 64.0 * j);
    } else {
      assert 64.0 * j <= 59.9936;
      Product(x, 64.0 * j, 0.0, 59.9936);
    }
  }

  lemma Reorder(x: real, j: real)
    ensures (64.0 * x) * j == x * (64.0 * j)
  {
  }

  /* The linear strategy */

  function LinearDelay(base: int, attempt: int): int {
    var delay := base + (attempt - 1) * base;
    if delay > 10 * base then 10 * base else delay
  }

  // Linear backoff never waits less later, and waits ten times the base exactly from attempt
  // 10 on.
  lemma LinearIsMonotone(base: int, a: int, b: int)
    requires 1 <= a <= b && base > 0
    ensures base <= LinearDelay(base, a) <= LinearDelay(base, b) <= 10 * base
    ensures LinearDelay(base, a) == 10 * base <==> a >= 10
    ensures a <= 10 ==> LinearDelay(base, a) == a * base
  {
    LinearIsMultiple(base, a);
    LinearIsMultiple(base, b);
    Multiples(base, 1, a);
    Multiples(base, a, b);
    if a >= 10 { Multiples(base, 10, a); } else { Multiples(base, a, 9); }
    if b >= 10 { Multiples(base, 10, b); }
  }

  lemma LinearIsMultiple(base: int, a: int)
    ensures base + (a - 1) * base == base * a
  {
  }

  lemma Multiples(base: int, a: int, b: int)
    requires base > 0 && a <= b
    ensures base * a <= base * b
  {
    assert base * (b - a) >= 0;
  }
}

// The "already compressed" heuristic of the publisher: magic numbers and an entropy estimate,
// in exact reals, with the logarithm the code uses.

module Entropy {
  import opened Messages

  /* The logarithm */

  function Squash(x: real): real
    requires x > 0.0
  {
    (x - 1.0) / (x + 1.0)
  }

  function LogNatural(x: real): real {
    if x <= 0.0 then 0.0
    else
      var y := Squash(x);
      var y2 := y * y;
      2.0 * y * (1.0 + y2 / 3.0 + y2 * y2 / 5.0 + y2 * y2 * y2 / 7.0)
  }

  // Multiplies by ln 2, where a base-2 logarithm would divide by it.
  function Log2(x: real): real {
    0.6931471805599453 * LogNatural(x)
  }

  // A bound on the logarithm of a probability, and so on the estimate.
  const BOUND := 2.329

  // A product with a positive factor has the sign of the other factor.
  lemma Sign(y: real, b: real)
    requires b > 0.0
    ensures y * b > 0.0 <==> y > 0.0
    ensures y * b == 0.0 <==> y == 0.0
  {
  }

  lemma SquashBounds(x: real)
    requires 0.0 < x <= 1.0
    ensures -1.0 < Squash(x) <= 0.0 && (Squash(x) == 0.0 <==> x == 1.0)
  {
    var y := Squash(x);
    assert y * (x + 1.0) == x - 1.0;
    assert (y + 1.0) * (x + 1.0) == 2.0 * x;
    Sign(y, x + 1.0);
    Sign(y + 1.0, x + 1.0);
  }

  lemma Scale(a: real, lo: real, x: real, hi: real)
    requires 0.0 <= a && lo <= x <= hi
    ensures a * lo <= a * x <= a * hi
  {
    assert a * (x - lo) >= 0.0 && a * (hi - x) >= 0.0;
  }

  // On probabilities the code's logarithm lies above -2.329 and at most at 0, and is 0 only at 1.
  lemma Log2Bounds(x: real)
    requires 0.0 < x <= 1.0
    ensures -BOUND < Log2(x) <= 0.0 && (Log2(x) == 0.0 <==> x == 1.0)
  {
    SquashBounds(x);
    hide Squash;
    var y := Squash(x);
    SeriesBounds(y);
  }

  lemma SeriesBounds(y: real)
    requires -1.0 < y <= 0.0
    ensures var y2 := y * y;
      var r := 2.0 * y * (1.0 + y2 / 3.0 + y2 * y2 / 5.0 + y2 * y2 * y2 / 7.0);
      -3.36 < r <= 0.0 && (r == 0.0 <==> y == 0.0)
  {
    var z, a := -y, y * y;
    assert a == z * z;
    Unit(z, z);
    Unit(a, a);
    Unit(a * a, a);
    var s := 1.0 + a / 3.0 + a * a / 5.0 + a * a * a / 7.0;
    assert 1.0 <= s <= 1.68;
    Scale(z, 1.0, s, 1.68);
    assert 2.0 * y * s == -2.0 * (z * s);
    Sign(z, s);
  }

  lemma Unit(a: real, b: real)
    requires 0.0 <= a <= 1.0 && 0.0 <= b <= 1.0
    ensures 0.0 <= a * b <= 1.0
  {
    var c := a * b;
    Scale(a, 0.0, b, 1.0);
    assert a * 0.0 == 0.0 && a * 1.0 == a;
    assert 0.0 <= c <= a;
  }

  /* Byte frequencies */

  function Count(data: seq<Byte>, b: int): nat {
    if data == [] then 0
    else Count(data[..|data| - 1], b) + (if data[|data| - 1] == b then 1 else 0)
  }

  function CountBelow(data: seq<Byte>, k: nat): nat {
    if k == 0 then 0 else CountBelow(data, k - 1) + Count(data, k - 1)
  }

  lemma {:induction false} CountHas(data: seq<Byte>, b: int)
    ensures Count(data, b) > 0 <==> b in data
    ensures Count(data, b) <= |data|
    decreases |data|
  {
    if data != [] {
      CountHas(data[..|data| - 1], b);
      assert data == data[..|data| - 1] + [data[|data| - 1]];
    }
  }

  lemma {:induction false} CountBelowStep(data: seq<Byte>, b: Byte, k: nat)
    ensures CountBelow(data + [b], k) == CountBelow(data, k) + (if b < k then 1 else 0)
    decreases k
  {
    if k > 0 {
      CountBelowStep(data, b, k - 1);
      assert (data + [b])[..|data|] == data;
    }
  }

  // The frequencies of all byte values add up to the length of the data.
  lemma {:induction false} FrequenciesSumToLength(data: seq<Byte>)
    ensures CountBelow(data, 256) == |data|
    decreases |data|
  {
    if data == [] {
      NoneBelow(256);
    } else {
      var n := |data| - 1;
      FrequenciesSumToLength(data[..n]);
      CountBelowStep(data[..n], data[n], 256);
      assert data[..n] + [data[n]] == data;
    }
  }

  lemma {:induction false} NoneBelow(k: nat)
    ensures CountBelow([], k) == 0
  {
    if k > 0 { NoneBelow(k - 1); }
  }

  /* The estimate */

  // The contribution of a byte value that occurs `count` times among n bytes.
  function Term(count: nat, n: nat): real
    requires n > 0
  {
    if count == 0 then 0.0
    else -(Fraction(count, n) * Log2(Fraction(count, n)))
  }

  function Fraction(count: nat, n: nat): real
    requires n > 0
  {
    count as real / n as real
  }

  lemma TermIs(count: nat, n: nat)
    requires n > 0
    ensures Term(count, n) == if count == 0 then 0.0 else -(count as real / n as real * Log2(count as real / n as real))
  {
  }

  // The sum of the terms of the values below k that are in `keys`.
  ghost function SumOver(data: seq<Byte>, keys: set<Byte>, k: nat): real
    requires data != []
  {
    if k == 0 then 0.0
    else SumOver(data, keys, k - 1) + (if k - 1 < 256 && k - 1 in keys then Term(Count(data, k - 1), |data|) else 0.0)
  }

  function Values(data: seq<Byte>): set<Byte> {
    set b | b in data
  }

  ghost function EntropyOf(data: seq<Byte>): real {
    if data == [] then 0.0 else SumOver(data, Values(data), 256)
  }

  lemma {:induction false} SumOverAdds(data: seq<Byte>, keys: set<Byte>, b: Byte, k: nat)
    requires data != [] && b !in keys
    ensures SumOver(data, keys + {b}, k)
         == SumOver(data, keys, k) + (if b < k then Term(Count(data, b), |data|) else 0.0)
  {
    if k > 0 {
      hide Term, Count;
      SumOverAdds(data, keys, b, k - 1);
    }
  }

  lemma {:induction false} SumOverNothing(data: seq<Byte>, k: nat)
    requires data != []
    ensures SumOver(data, {}, k) == 0.0
  {
    if k > 0 { SumOverNothing(data, k - 1); }
  }

  // Whatever order the frequency map is iterated in, the result is the same sum.
  method CalculateEntropy(data: seq<Byte>) returns (entropy: real)
    ensures entropy == EntropyOf(data)
  {
    if |data| == 0 { return 0.0; }
    var freq := Frequencies(data);
    entropy := 0.0;
    var left := freq.Keys;
    SumOverNothing(data, 256);
    assert freq.Keys - left == {};
    while left != {}
      invariant left <= freq.Keys && entropy == SumOver(data, freq.Keys - left, 256)
      decreases left
    {
      hide SumOver, Count, Log2, Term;
      var b :| b in left;
      TermIs(freq[b], |data|);
      if freq[b] > 0 {
        var p := freq[b] as real / |data| as real;
        entropy := entropy - p * Log2(p);
      }
      SumOverAdds(data, freq.Keys - left, b, 256);
      assert freq.Keys - left + {b} == freq.Keys - (left - {b});
      left := left - {b};
    }
    assert freq.Keys - left == Values(data);
  }

  method Frequencies(data: seq<Byte>) returns (freq: map<Byte, nat>)
    ensures forall b :: b in freq <==> b in data
    ensures forall b :: b in freq ==> freq[b] == Count(data, b)
  {
    freq := map[];
    for i := 0 to |data|
      invariant forall b :: b in freq <==> b in data[..i]
      invariant forall b :: b in freq ==> freq[b] == Count(data[..i], b)
    {
      var c := data[i];
      assert data[..i + 1][..i] == data[..i];
      CountHas(data[..i], c);
      freq := freq[c := (if c in freq then freq[c] else 0) + 1];
    }
    assert data[..|data|] == data;
  }

  ghost predicate IsProduct(c: real, p: real, n: real) {
    c == p * n
  }

  // n times t is below 2.329 times c.
  ghost predicate Light(n: real, t: real, c: real) {
    n * t < BOUND * c
  }

  lemma Probability(count: nat, n: nat)
    requires 0 < count <= n
    ensures 0.0 < Fraction(count, n) <= 1.0 && (Fraction(count, n) == 1.0 <==> count == n)
    ensures IsProduct(count as real, Fraction(count, n), n as real)
  {
    var p := Fraction(count, n);
    assert p * n as real == count as real;
    Sign(p, n as real);
    Sign(1.0 - p, n as real);
    assert (1.0 - p) * n as real == n as real - count as real;
  }

  lemma Associate(x: real, y: real, z: real)
    ensures x * (y * z) == (y * x) * z
  {
  }

  lemma Weigh(n: real, p: real, l: real, c: real, t: real)
    requires p > 0.0 && IsProduct(c, p, n) && c > 0.0 && 0.0 <= l < BOUND && IsProduct(t, p, l)
    ensures t >= 0.0 && (t == 0.0 <==> l == 0.0) && Light(n, t, c)
  {
    Sign(l, p);
    Associate(n, p, l);
    Sign(BOUND - l, c);
    assert (BOUND - l) * c == BOUND * c - c * l;
  }

  // The term of an occurring value is non-negative, 0 only if it is the only value, and n
  // times the term is below 2.329 times the count.
  lemma TermBounds(count: nat, n: nat)
    requires 0 < count <= n
    ensures Term(count, n) >= 0.0 && (Term(count, n) == 0.0 <==> count == n)
    ensures Light(n as real, Term(count, n), count as real)
  {
    hide Fraction, Log2, Light, IsProduct;
    var p := Fraction(count, n);
    Probability(count, n);
    Log2Bounds(p);
    TermIsProduct(count, n);
    hide Term;
    Weigh(n as real, p, -Log2(p), count as real, Term(count, n));
  }

  lemma TermIsProduct(count: nat, n: nat)
    requires 0 < count <= n
    ensures IsProduct(Term(count, n), Fraction(count, n), -Log2(Fraction(count, n)))
  {
  }

  /* Bounds on the estimate */

  // n times s is non-negative and at most 2.329 times c.
  ghost predicate Within(n: nat, s: real, c: nat) {
    0.0 <= s && n as real * s <= BOUND * c as real
  }

  lemma WithinAdd(n: nat, s: real, c: nat, t: real, d: nat)
    requires n > 0 && Within(n, s, c) && Within(n, t, d)
    ensures Within(n, s + t, c + d)
  {
    assert n as real * (s + t) == n as real * s + n as real * t;
    assert (c + d) as real == c as real + d as real;
  }

  lemma ZeroWithin(n: nat, c: nat)
    ensures Within(n, 0.0, c)
  {
  }

  lemma LightIsWithin(n: nat, t: real, c: nat)
    requires t >= 0.0 && Light(n as real, t, c as real)
    ensures Within(n, t, c)
  {
  }

  lemma {:induction false} PartialBounds(data: seq<Byte>, keys: set<Byte>, k: nat)
    requires data != [] && k <= 256
    ensures Within(|data|, SumOver(data, keys, k), CountBelow(data, k))
    decreases k
  {
    if k > 0 {
      assert Term(0, |data|) == 0.0;
      hide Term, Count, Within, Light;
      PartialBounds(data, keys, k - 1);
      CountHas(data, k - 1);
      var n, c := |data|, Count(data, k - 1);
      var t := if k - 1 in keys then Term(c, n) else 0.0;
      ZeroWithin(n, c);
      if c > 0 {
        TermBounds(c, n);
        LightIsWithin(n, Term(c, n), c);
      }
      WithinAdd(n, SumOver(data, keys, k - 1), CountBelow(data, k - 1), t, c);
    }
  }

  // The estimate is never negative and stays below 2.33.
  lemma EntropyIsSmall(data: seq<Byte>)
    ensures 0.0 <= EntropyOf(data) < 2.33
  {
    if data != [] {
      PartialBounds(data, Values(data), 256);
      FrequenciesSumToLength(data);
      Cancel(|data| as real, EntropyOf(data), BOUND);
    }
  }

  lemma Cancel(n: real, x: real, y: real)
    requires n > 0.0 && n * x <= y * n
    ensures x <= y
  {
    Sign(x - y, n);
  }

  lemma {:induction false} TermIsPart(data: seq<Byte>, keys: set<Byte>, b: Byte, k: nat)
    requires data != [] && b in keys && b < k <= 256
    ensures Term(Count(data, b), |data|) <= SumOver(data, keys, k)
    decreases k
  {
    assert Term(0, |data|) == 0.0;
    hide Term, Count;
    CountHas(data, k - 1);
    if b == k - 1 {
      PartialBounds(data, keys, k - 1);
    } else {
      TermIsPart(data, keys, b, k - 1);
      if Count(data, k - 1) > 0 { TermBounds(Count(data, k - 1), |data|); }
    }
  }

  lemma {:induction false} CountIsAll(data: seq<Byte>, b: Byte)
    ensures Count(data, b) == |data| <==> forall i :: 0 <= i < |data| ==> data[i] == b
    decreases |data|
  {
    if data != [] {
      var init := data[..|data| - 1];
      CountIsAll(init, b);
      CountHas(init, b);
      assert forall i :: 0 <= i < |init| ==> init[i] == data[i];
    }
  }

  // It is 0 exactly when at most one byte value occurs.
  lemma EntropyIsZero(data: seq<Byte>)
    ensures EntropyOf(data) == 0.0 <==> forall i, j :: 0 <= i < |data| && 0 <= j < |data| ==> data[i] == data[j]
  {
    if data != [] {
      hide Term, Count, SumOver;
      var b := data[0];
      CountHas(data, b);
      CountIsAll(data, b);
      TermBounds(Count(data, b), |data|);
      TermIsPart(data, Values(data), b, 256);
      if Count(data, b) == |data| {
        assert Values(data) == {} + {b};
        SumOverNothing(data, 256);
        SumOverAdds(data, {}, b, 256);
      } else {
        EntropyIsSmall(data);
      }
    }
  }

  /* The values of the estimate */

  // The logarithm of an inverse is the negated logarithm.
  lemma Log2OfInverse(x: real)
    requires x > 0.0
    ensures Log2(1.0 / x) == -Log2(x)
  {
    SquashOfInverse(x);
    var y := Squash(x);
    hide Squash;
    assert 1.0 / x > 0.0;
    assert (-y) * (-y) == y * y;
  }

  lemma SquashOfInverse(x: real)
    requires x > 0.0
    ensures 1.0 / x > 0.0 && Squash(1.0 / x) == -Squash(x)
  {
    var i, y := 1.0 / x, Squash(x);
    assert i * x == 1.0;
    Sign(i, x);
    assert y * (x + 1.0) == x - 1.0;
    assert Squash(i) * (i + 1.0) == i - 1.0;
    Invert(x, i, y, Squash(i));
  }

  lemma Invert(x: real, i: real, y: real, z: real)
    requires x > 0.0 && i > 0.0 && i * x == 1.0
    requires y * (x + 1.0) == x - 1.0 && z * (i + 1.0) == i - 1.0
    ensures z == -y
  {
    assert (z * (i + 1.0)) * x == (i - 1.0) * x;
    assert (z * (i + 1.0)) * x == z * (i * x + x);
    assert (i - 1.0) * x == 1.0 - x;
    assert z * (1.0 + x) == 1.0 - x;
    assert (z + y) * (x + 1.0) == 0.0;
    Sign(z + y, x + 1.0);
  }

  // The true logarithm of a half is -1, the true entropy of a fair coin 1; the code's are
  // smaller by the square of ln 2.
  lemma HalfIsTooSmall()
    ensures -0.48045 < Log2(0.5) < -0.48044
  {
    assert Squash(0.5) == -1.0 / 3.0;
  }

  // n times s is c times l.
  ghost predicate Balanced(n: nat, s: real, c: nat, l: real) {
    n as real * s == c as real * l
  }

  lemma BalancedAdd(n: nat, s: real, c: nat, t: real, d: nat, l: real)
    requires Balanced(n, s, c, l) && Balanced(n, t, d, l)
    ensures Balanced(n, s + t, c + d, l)
  {
    assert n as real * (s + t) == n as real * s + n as real * t;
    assert (c + d) as real * l == c as real * l + d as real * l;
  }

  lemma TermBalanced(count: nat, n: nat)
    requires 0 < count <= n
    ensures Balanced(n, Term(count, n), count, -Log2(Fraction(count, n)))
  {
    hide Log2, Fraction;
    Probability(count, n);
    var p, l := Fraction(count, n), -Log2(Fraction(count, n));
    TermIsProduct(count, n);
    hide Term;
    Associate(n as real, p, l);
    assert p * n as real == n as real * p;
  }

  lemma {:induction false} UniformSum(data: seq<Byte>, c: nat, k: nat)
    requires 0 < c <= |data| && k <= 256 && forall b :: b in data ==> Count(data, b) == c
    ensures Balanced(|data|, SumOver(data, Values(data), k), CountBelow(data, k), -Log2(Fraction(c, |data|)))
    decreases k
  {
    var n, l := |data|, -Log2(Fraction(c, |data|));
    if k > 0 {
      UniformSum(data, c, k - 1);
      CountHas(data, k - 1);
      TermBalanced(c, n);
      assert Balanced(n, 0.0, 0, l);
      hide Term, Count, Log2, Fraction, Balanced;
      BalancedAdd(n, SumOver(data, Values(data), k - 1), CountBelow(data, k - 1),
                  if k - 1 in data then Term(c, n) else 0.0, if k - 1 in data then c else 0, l);
    }
  }

  // When all occurring byte values are equally frequent, the estimate is the negated logarithm
  // of their probability.
  lemma UniformEntropy(data: seq<Byte>, c: nat)
    requires data != [] && 0 < c <= |data| && forall b :: b in data ==> Count(data, b) == c
    ensures EntropyOf(data) == -Log2(Fraction(c, |data|))
  {
    UniformSum(data, c, 256);
    FrequenciesSumToLength(data);
    var n, l := |data| as real, -Log2(Fraction(c, |data|));
    hide Log2, Fraction, SumOver;
    assert n * EntropyOf(data) == n * l;
    assert n * (EntropyOf(data) - l) == 0.0;
    Sign(EntropyOf(data) - l, n);
  }

  // A fair coin: two values, each half of the bytes.
  lemma FairCoin(data: seq<Byte>, c: nat)
    requires 0 < c && |data| == 2 * c && forall b :: b in data ==> Count(data, b) == c
    ensures 0.48044 < EntropyOf(data) < 0.48045
  {
    UniformEntropy(data, c);
    assert Fraction(c, |data|) == 0.5 by { HalfOf(c); }
    hide Log2, Fraction;
    HalfIsTooSmall();
  }

  lemma HalfOf(c: nat)
    requires c > 0
    ensures Fraction(c, 2 * c) == 0.5
  {
    var p, n := Fraction(c, 2 * c), (2 * c) as real;
    assert n == 2.0 * c as real;
    assert p * n == c as real;
    HalfIs(p, n, c as real);
  }

  lemma HalfIs(p: real, n: real, c: real)
    requires n > 0.0 && n == 2.0 * c && p * n == c
    ensures p == 0.5
  {
    assert (p - 0.5) * n == 0.0;
    Sign(p - 0.5, n);
  }

  /* The heuristic */

  // The entropy test never fires: the heuristic is its magic-number checks.
  method IsLikelyCompressed(data: seq<Byte>) returns (r: bool)
    ensures
      // gzip, PNG, JPEG or ZIP
      var magic := || [0x1f, 0x8b] <= data || [0x89, 0x50, 0x4e, 0x47, 0x0d, 0x0a, 0x1a, 0x0a] <= data
                   || [0xff, 0xd8] <= data || [0x50, 0x4b, 0x03, 0x04] <= data;
      r <==> |data| >= 10 && magic
  {
    if |data| < 10 { return false; }
    if data[0] == 0x1f && data[1] == 0x8b {
      assert data[..2] == [0x1f, 0x8b];
      return true;
    }
    if |data| >= 8 && data[..8] == [0x89, 0x50, 0x4e, 0x47, 0x0d, 0x0a, 0x1a, 0x0a] { return true; }
    if |data| >= 2 && data[0] == 0xff && data[1] == 0xd8 {
      assert data[..2] == [0xff, 0xd8];
      return true;
    }
    if |data| >= 4 && data[..4] == [0x50, 0x4b, 0x03, 0x04] { return true; }
    var head := if |data| < 1024 then data else data[..1024];
    var entropy := CalculateEntropy(head);
    EntropyIsSmall(head);
    r := entropy > 7.0;
  }
}

// Partition choice by key: the wrapping polynomial hash of the publisher, and the partition
// manager's own rule.  Go's int is 64 bits wide, its int32 conversion truncates, and its %
// takes the sign of the dividend.

module PartitionHash {
  import opened Messages
  import opened Options
  import opened PowersOfTwo

  const TWO63: int := 0x8000_0000_0000_0000
  const TWO64: int := 0x1_0000_0000_0000_0000
  const TWO31: int := 0x8000_0000
  const TWO32: int := 0x1_0000_0000

  // Reduction to a signed machine integer.
  function Wrap64(x: int): (r: int)
    ensures -TWO63 <= r < TWO63
  {
    (x + TWO63) % TWO64 - TWO63
  }

  function Wrap32(x: int): (r: int)
    ensures -TWO31 <= r < TWO31
  {
    (x + TWO31) % TWO32 - TWO31
  }

  // The remainder has the sign of the dividend.
  function GoMod(a: int, b: int): (r: int)
    requires b > 0
    ensures -b < r < b && (a >= 0 ==> r >= 0) && (a <= 0 ==> r <= 0)
  {
    if a >= 0 then a % b else -((-a) % b)
  }

  // The machine integers are the representatives of the residue classes.
  lemma WrapsAreCongruent(x: int)
    ensures (Wrap64(x) - x) % TWO64 == 0 && (-TWO63 <= x < TWO63 ==> Wrap64(x) == x)
    ensures (Wrap32(x) - x) % TWO32 == 0 && (-TWO31 <= x < TWO31 ==> Wrap32(x) == x)
  {
    ModulusUnique(Wrap64(x) - x, TWO64, -((x + TWO63) / TWO64), 0);
    ModulusUnique(Wrap32(x) - x, TWO32, -((x + TWO31) / TWO32), 0);
  }

  // The dividend less the remainder is a multiple of the divisor.
  lemma GoModDivides(a: int, b: int)
    requires b > 0
    ensures (a - GoMod(a, b)) % b == 0
  {
    var q := if a >= 0 then a / b else -((-a) / b);
    assert a == b * q + GoMod(a, b) by {
      if a < 0 { assert b * -((-a) / b) == -(b * ((-a) / b)); }
    }
    ModulusUnique(a - GoMod(a, b), b, q, 0);
  }

  function Pow31(n: nat): nat {
    if n == 0 then 1 else 31 * Pow31(n - 1)
  }

  // The polynomial sum of b[i] * 31^(n-1-i).
  function Weighted(s: seq<Byte>): nat {
    if s == [] then 0 else s[0] * Pow31(|s| - 1) + Weighted(s[1..])
  }

  lemma {:induction false} WeightedStep(s: seq<Byte>, b: Byte)
    ensures Weighted(s + [b]) == Weighted(s) * 31 + b
    decreases |s|
  {
    if s == [] {
      assert ([b])[1..] == [];
    } else {
      WeightedStep(s[1..], b);
      assert (s + [b])[1..] == s[1..] + [b];
      var x, p, w := s[0], Pow31(|s| - 1), Weighted(s[1..]);
      assert Pow31(|s|) == 31 * p;
      assert x * (31 * p) == (x * p) * 31;
    }
  }

  lemma WrapPeriod(x: int, k: int)
    ensures Wrap64(x + TWO64 * k) == Wrap64(x)
  {
    var q, r := (x + TWO63) / TWO64, (x + TWO63) % TWO64;
    ModulusUnique(x + TWO64 * k + TWO63, TWO64, q + k, r);
  }

  // Reducing before a step of the loop or after it is the same.
  lemma WrapStep(a: int, b: int)
    ensures Wrap64(Wrap64(a) * 31 + b) == Wrap64(a * 31 + b)
  {
    var q := (a + TWO63) / TWO64;
    assert Wrap64(a) == a - TWO64 * q;
    WrapPeriod(a * 31 + b, -31 * q);
  }

  // The residue of the sum, folded to its absolute value as far as 64 bits allow.
  function Folded(residue: int): int {
    if residue == -TWO63 then residue else if residue < 0 then -residue else residue
  }

  lemma WrapOfNegation(v: int)
    requires -TWO63 <= v < TWO63
    ensures Wrap64(-v) == if v == -TWO63 then v else -v
  {
  }

  // The wrapping loop computes the polynomial sum reduced to 64 bits and folded.
  method Hash(data: seq<Byte>) returns (h: int)
    ensures h == Folded(Wrap64(Weighted(data)))
    // the absolute value of the residue, as far as there is one
    ensures var v := Wrap64(Weighted(data));
      && (h == v || h == -v) && (h >= 0 <==> v != -TWO63) && -TWO63 <= h < TWO63
  {
    h := 0;
    assert Weighted([]) == 0 && data[..0] == [] && Wrap64(0) == 0;
    hide Weighted, Wrap64;
    for i := 0 to |data|
      invariant h == Wrap64(Weighted(data[..i]))
    {
      Extend(data, i);
      WrapStep(Weighted(data[..i]), data[i]);
      h := Wrap64(h * 31 + data[i]);
    }
    assert data[..|data|] == data;
    WrapOfNegation(h);
    if h < 0 {
      h := Wrap64(-h);
    }
  }

  // The hashed partition of a key.
  function HashedPartition(key: seq<Byte>, partitions: int): int
    requires 0 < partitions
  {
    GoMod(Folded(Wrap64(Weighted(key))), partitions)
  }

  // The partition of a message: the requested one, or the hash of the key, or of the message
  // id when there is no key.
  function PartitionFor(requested: Option<int>, key: seq<Byte>, id: seq<Byte>, partitions: int): int
    requires 0 < partitions
  {
    if requested.Some? then requested.value
    else HashedPartition(if key != [] then key else id, partitions)
  }

  // For a key that does not miss, the partition is the absolute residue modulo the count.
  lemma PartitionIsAbsoluteResidue(key: seq<Byte>, partitions: nat)
    requires 0 < partitions < TWO31
    ensures var v := Wrap64(Weighted(key));
      var p := HashedPartition(key, partitions);
      && (v >= 0 ==> p == v % partitions) && (-TWO63 < v < 0 ==> p == (-v) % partitions)
      && (v == -TWO63 ==> p == -(TWO63 % partitions))
  {
  }

  method ChoosePartition(requested: Option<int>, key: seq<Byte>, id: seq<Byte>, partitions: int) returns (p: int)
    requires 0 < partitions < TWO31
    ensures p == PartitionFor(requested, key, id, partitions)
    ensures requested.Some? ==> p == requested.value
    ensures requested.None? ==>
      var v := Wrap64(Weighted(if key != [] then key else id));
      v != -TWO63 ==> p == (if v >= 0 then v else -v) % partitions
  {
    PartitionIsAbsoluteResidue(if key != [] then key else id, partitions);
    hide Weighted, Folded, Wrap64, Wrap32, GoMod;
    if requested.Some? {
      p := requested.value;
    } else if |key| > 0 {
      var h := Hash(key);
      NarrowKeeps(h, partitions);
      p := Wrap32(GoMod(h, partitions));
    } else {
      var h := Hash(id);
      NarrowKeeps(h, partitions);
      p := Wrap32(GoMod(h, partitions));
    }
  }

  // The conversion to 32 bits loses nothing.
  lemma NarrowKeeps(h: int, partitions: int)
    requires 0 < partitions < TWO31
    ensures Wrap32(GoMod(h, partitions)) == GoMod(h, partitions)
  {
  }

  /* When the partition is in range */

  // A divisor of a power of two is a power of two.
  lemma {:induction false} DivisorOfPow2(n: nat, p: nat)
    requires IsPow2(n) && p > 0 && n % p == 0
    ensures IsPow2(p)
    decreases n, p
  {
    if p > 1 {
      var q := n / p;
      assert n == p * q;
      if n == 1 {
        SmallModulus(n, p);
      } else if p % 2 == 0 {
        HalfOfProduct(p, q);
        DivisorOfPow2(n / 2, p / 2);
      } else {
        OddFactor(p, q);
        HalfOfProduct(q, p);
        DivisorOfPow2(n / 2, p);
      }
    }
  }

  // Half of an even factor times the other factor is half of the product.
  lemma HalfOfProduct(p: nat, q: nat)
    requires p > 0 && p % 2 == 0
    ensures p * q / 2 == p / 2 * q
    ensures p * q / 2 % (p / 2) == 0
    ensures q > 0 ==> p * q / 2 % q == 0
  {
    var h := p / 2;
    assert p == 2 * h;
    assert p * q == 2 * (h * q);
    ModulusUnique(h * q, h, q, 0);
    if q > 0 { ModulusUnique(h * q, q, h, 0); }
  }

  lemma SmallModulus(n: nat, p: nat)
    requires n < p
    ensures n % p == n
  {
  }

  lemma OddFactor(p: nat, q: nat)
    requires p % 2 == 1 && (p * q) % 2 == 0
    ensures q % 2 == 0
  {
    if q % 2 == 1 { OddProduct(p, q); }
  }

  lemma OddProduct(p: nat, q: nat)
    requires p % 2 == 1 && q % 2 == 1
    ensures (p * q) % 2 == 1
  {
    var h := q / 2;
    assert q == 2 * h + 1;
    assert p * q == 2 * (p * h) + p;
  }

  // A smaller power of two divides a larger one.
  lemma {:induction false} Pow2Divides(n: nat, p: nat)
    requires IsPow2(n) && IsPow2(p) && p <= n
    ensures n % p == 0
    decreases p
  {
    if p > 1 {
      Pow2Divides(n / 2, p / 2);
      var q := (n / 2) / (p / 2);
      assert n / 2 == (p / 2) * q;
      assert n == p * q by {
        assert p == 2 * (p / 2) && n == 2 * (n / 2);
        assert 2 * ((p / 2) * q) == (2 * (p / 2)) * q;
      }
      ModulusUnique(n, p, q, 0);
    }
  }

  lemma TwoToThe63()
    ensures IsPow2(TWO63)
  {
    assert Pow2(7) == 0x80;
    assert Pow2(14) == 0x80 * 0x80;
    assert Pow2(21) == 0x80 * Pow2(14);
    assert Pow2(28) == 0x80 * Pow2(21);
    assert Pow2(35) == 0x80 * Pow2(28);
    assert Pow2(42) == 0x80 * Pow2(35);
    assert Pow2(49) == 0x80 * Pow2(42);
    assert Pow2(56) == 0x80 * Pow2(49);
    assert Pow2(63) == 0x80 * Pow2(56);
    Pow2IsPow2(63);
  }

  // The residue is -2^63 and the partition count is not a power of two.
  predicate Misses(data: seq<Byte>, partitions: nat) {
    Wrap64(Weighted(data)) == -TWO63 && !IsPow2(partitions)
  }

  // The hashed partition is a valid one for every key and every partition count, except
  // exactly when it misses.
  lemma PartitionInRange(data: seq<Byte>, partitions: nat)
    requires 0 < partitions < TWO31
    ensures var p := HashedPartition(data, partitions);
      0 <= p < partitions <==> !Misses(data, partitions)
  {
    if Wrap64(Weighted(data)) == -TWO63 {
      TwoToThe63();
      if IsPow2(partitions) {
        Pow2Divides(TWO63, partitions);
      } else if TWO63 % partitions == 0 {
        DivisorOfPow2(TWO63, partitions);
      }
    }
  }

  // The base-31 digits of 2^63: a key whose partition is negative for three partitions.
  const WORST_KEY: seq<Byte> := [11, 22, 0, 3, 18, 9, 5, 17, 18, 10, 4, 3, 8]

  lemma WorstKey()
    ensures Weighted(WORST_KEY) == TWO63
    ensures HashedPartition(WORST_KEY, 3) == -2
  {
    hide Weighted;
    FirstDigits();
    LastDigits();
    assert Wrap64(TWO63) == -TWO63;
    assert TWO63 % 3 == 2;
  }

  lemma FirstDigits()
    ensures Weighted(WORST_KEY[..7]) == 10392488768
  {
    var k := WORST_KEY;
    assert k[..0] == [];
    hide Weighted;
    Extend(k, 0);
    Extend(k, 1);
    Extend(k, 2);
    Extend(k, 3);
    Extend(k, 4);
    Extend(k, 5);
    Extend(k, 6);
  }

  lemma LastDigits()
    requires Weighted(WORST_KEY[..7]) == 10392488768
    ensures Weighted(WORST_KEY) == TWO63
  {
    hide Weighted;
    var k := WORST_KEY;
    Extend(k, 7);
    Extend(k, 8);
    Extend(k, 9);
    Extend(k, 10);
    Extend(k, 11);
    Extend(k, 12);
    assert k[..13] == k;
  }

  lemma Extend(k: seq<Byte>, i: nat)
    requires i < |k|
    ensures Weighted(k[..i + 1]) == Weighted(k[..i]) * 31 + k[i]
  {
    assert k[..i + 1] == k[..i] + [k[i]];
    WeightedStep(k[..i], k[i]);
  }

  /* The partition manager's rule */

  // `x` is a 32-bit hash of the key, or the clock when there is no key.
  function AssignPartition(x: int, partitions: int): (p: int)
    requires 0 < partitions
  {
    var r := GoMod(Wrap32(x), partitions);
    if r < 0 then r + partitions else r
  }

  // The sign correction always lands in range, on the residue modulo the partition count.
  lemma AssignmentInRange(x: int, partitions: int)
    requires 0 < partitions
    ensures 0 <= AssignPartition(x, partitions) < partitions
    ensures AssignPartition(x, partitions) == Wrap32(x) % partitions
  {
    var w := Wrap32(x);
    if w < 0 {
      var q, r := (-w) / partitions, (-w) % partitions;
      if r == 0 {
        ModulusUnique(w, partitions, -q, 0);
      } else {
        ModulusUnique(w, partitions, -q - 1, partitions - r);
      }
    }
  }
}

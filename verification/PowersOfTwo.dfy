// Powers of two, and the bitwise form of "modulo a power of two".

module PowersOfTwo {

  predicate IsPow2(n: nat) {
    n == 1 || (n > 1 && n % 2 == 0 && IsPow2(n / 2))
  }

  // Bitwise conjunction of two non-negative machine integers, bit by bit.
  function BitAnd(a: nat, b: nat): nat {
    if a == 0 || b == 0 then 0
    else 2 * BitAnd(a / 2, b / 2) + (if a % 2 == 1 && b % 2 == 1 then 1 else 0)
  }

  // Masking with n - 1 is reduction modulo n, for every power of two n.
  lemma {:induction false} MaskIsModulus(x: nat, n: nat)
    requires IsPow2(n)
    ensures BitAnd(x, n - 1) == x % n
    decreases n
  {
    if n > 1 {
      MaskIsModulus(x / 2, n / 2);
      ModulusByHalves(x, n / 2);
      assert (n - 1) / 2 == n / 2 - 1;
    }
  }

  lemma ModulusByHalves(x: nat, m: nat)
    requires m > 0
    ensures x % (2 * m) == 2 * ((x / 2) % m) + x % 2
  {
    var q, r := (x / 2) / m, (x / 2) % m;
    assert x == (2 * m) * q + (2 * r + x % 2);
    ModulusUnique(x, 2 * m, q, 2 * r + x % 2);
  }

  lemma ModulusUnique(x: int, n: int, q: int, r: int)
    requires n > 0 && 0 <= r < n
    requires x == n * q + r
    ensures x % n == r && x / n == q
  {
    var d := x / n - q;
    assert n * d == r - x % n;
    MultipleIsFar(n, d);
  }

  lemma MultipleIsFar(n: int, d: int)
    requires n > 0
    ensures d >= 1 ==> n * d >= n
    ensures d <= -1 ==> n * d <= -n
  {
  }

  // Distinct powers of two are at least a factor of two apart.
  lemma {:induction false} Pow2Gap(a: nat, b: nat)
    requires IsPow2(a) && IsPow2(b) && a < b
    ensures 2 * a <= b
    decreases b
  {
    if a > 1 { Pow2Gap(a / 2, b / 2); }
  }

  function Pow2(k: nat): nat {
    if k == 0 then 1 else 2 * Pow2(k - 1)
  }

  lemma {:induction false} Pow2IsPow2(k: nat)
    ensures IsPow2(Pow2(k))
  {
    if k > 0 { Pow2IsPow2(k - 1); }
  }
}

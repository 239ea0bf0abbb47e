/** The nonlinear facts the overflow guards and the layouts rest on. */
module Arithmetic {
  const MAX_INT := 0x7FFF_FFFF_FFFF_FFFF
  const MAX_UINT64 := 0xFFFF_FFFF_FFFF_FFFF

  // Go's unsigned 64-bit arithmetic keeps the low 64 bits.
  function Wrap64(v: nat): (r: nat)
    ensures r <= MAX_UINT64
    ensures v <= MAX_UINT64 ==> r == v
  {
    v % 0x1_0000_0000_0000_0000
  }

  predicate IsInt(v: int) { -MAX_INT - 1 <= v <= MAX_INT }

  // Go's signed 64-bit arithmetic wraps around in two's complement.
  function WrapInt(v: int): (r: int)
    ensures IsInt(r)
    ensures IsInt(v) ==> r == v
  {
    (v + MAX_INT + 1) % 0x1_0000_0000_0000_0000 - MAX_INT - 1
  }

  // Products by m of distinct factors are at least m apart.
  lemma {:induction false} Apart(a: nat, b: nat, m: nat)
    ensures a < b ==> a * m + m <= b * m
    ensures a <= b ==> a * m <= b * m
  {
    if a < b {
      Apart(a, b - 1, m);
      assert b * m == (b - 1) * m + m;
    }
  }

  // Division is the only way to write v as a multiple and a small rest.
  lemma RestIsUnique(v: nat, m: nat, q: nat, rest: nat)
    requires rest < m && v == q * m + rest
    ensures v / m == q && v % m == rest
  {
    var q1, rest1 := v / m, v % m;
    assert v == q1 * m + rest1;
    Apart(q, q1, m);
    Apart(q1, q, m);
  }

  // A guard of the form a > limit / b is the exact test for a product above the limit.
  lemma ExceedsByDivision(a: nat, b: nat, limit: nat)
    requires 0 < b
    ensures a > limit / b <==> a * b > limit
  {
    var q := limit / b;
    assert limit == q * b + limit % b;
    Apart(a, q, b);
    Apart(q, a, b);
  }
}

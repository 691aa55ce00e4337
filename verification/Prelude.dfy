/** Machine ranges and small helpers shared by every model in this project. */
module Prelude {

  const U32_MODULUS: nat := 0x1_0000_0000
  const U64_MODULUS: nat := 0x1_0000_0000_0000_0000
  const U128_MODULUS: nat := 0x1_0000_0000_0000_0000_0000_0000_0000_0000
  const U64_MAX: nat := U64_MODULUS - 1

  type U32 = x: int | 0 <= x < 0x1_0000_0000
  type U64 = x: int | 0 <= x < 0x1_0000_0000_0000_0000

  datatype Option<+T> = None | Some(value: T)

  function Min(a: nat, b: nat): nat {
    if a <= b then a else b
  }

  function Max(a: nat, b: nat): nat {
    if a <= b then b else a
  }

  /** Rust's `saturating_sub` on unsigned integers. */
  function SaturatingSub(a: nat, b: nat): nat {
    if a <= b then 0 else a - b
  }

  lemma {:induction false} SubsetSize<T>(a: set<T>, b: set<T>)
    requires a <= b
    ensures |a| <= |b|
  {
    if a == {} {
    } else {
      var x :| x in a;
      SubsetSize(a - {x}, b - {x});
    }
  }

  lemma QuotientGrows(a: nat, b: nat, d: nat)
    requires a <= b && 0 < d
    ensures a / d <= b / d
  {
    var qa, qb := a / d, b / d;
    assert a == d * qa + a % d && b == d * qb + b % d;
    assert qa >= qb + 1 ==> d * qa >= d * (qb + 1) == d * qb + d;
  }

  /** A wrapping u64 accumulator agrees with the exact sum modulo 2^64. */
  lemma WrappingAdd(total: nat, x: nat, rest: nat)
    ensures ((total + x) % U64_MODULUS + rest) % U64_MODULUS == (total + (x + rest)) % U64_MODULUS
    ensures (total % U64_MODULUS + x) % U64_MODULUS == (total + x) % U64_MODULUS
  {
  }
}

/** Unsigned 64-bit machine words, as C's `uint64_t`, and the two ways the
    factorial kernels multiply them: the plain C `*` (which wraps modulo 2^64)
    and GCC's `__builtin_umulll_overflow` (which wraps and also reports whether
    the exact product did not fit). */
module UInt64 {

  const TWO64: nat := 0x1_0000_0000_0000_0000
  const U64_MAX: nat := TWO64 - 1

  /** A value of C's `uint64_t`. */
  type u64 = x: nat | x < TWO64

  /** A 64-bit result together with the overflow flag a kernel reports
      through its `bool *oflow` out-parameter. */
  datatype Checked = Checked(value: u64, overflow: bool)

  /** C's unsigned multiplication `a * b` on `uint64_t`: the exact product
      reduced modulo 2^64. A product that fits comes out unchanged. */
  function MulWrap(a: u64, b: u64): (r: u64)
    ensures a * b < TWO64 ==> r == a * b
  {
    (a * b) % TWO64
  }

  /** `__builtin_umulll_overflow(a, b, &r)`: stores the wrapped product in
      `r` and, as GCC documents for the integer overflow builtins, returns
      true exactly when the stored result differs from the exact product. */
  function MulOvf(a: u64, b: u64): (r: Checked)
    ensures r.value == MulWrap(a, b)
    ensures r.overflow <==> r.value != a * b
  {
    Checked(MulWrap(a, b), a * b >= TWO64)
  }

  lemma MulOvfCommutes(a: u64, b: u64)
    ensures MulOvf(a, b) == MulOvf(b, a)
  {
    assert a * b == b * a;
  }

  /** Reducing a factor modulo 2^64 before multiplying does not change the
      product modulo 2^64: this is why a wrapped accumulator stays congruent
      to the exact product. */
  lemma {:induction false} MulWrapOfReduced(x: nat, k: u64)
    ensures MulWrap(x % TWO64, k) == (x * k) % TWO64
  {
    var q, r := x / TWO64, x % TWO64;
    assert x == q * TWO64 + r;
    calc {
      x * k;
      (q * TWO64 + r) * k;
      { assert (q * TWO64 + r) * k == (q * k) * TWO64 + r * k; }
      (q * k) * TWO64 + r * k;
    }
    ModAddMultiple(q * k, r * k);
  }

  lemma {:induction false} ModAddMultiple(m: nat, y: nat)
    ensures (m * TWO64 + y) % TWO64 == y % TWO64
  {
    var s := m * TWO64 + y;
    assert s == (m + y / TWO64) * TWO64 + y % TWO64;
  }
}

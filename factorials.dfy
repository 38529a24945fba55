/** The four 64-bit factorial kernels of `factorials.c`. Each takes an
    unsigned 64-bit `val` and returns a `uint64_t` together with the overflow
    flag it writes through its `bool *oflow` out-parameter; here the flag is a
    second out-parameter (methods) or the `overflow` field of a `Checked`
    (functions). */
module Factorials {
  import opened UInt64
  import opened FactorialMath

  // ---------------------------------------------------------------------
  // The checked product 1 * 2 * ... * n
  // ---------------------------------------------------------------------

  /** Multiplying 1, 2, ..., n into a 64-bit accumulator, one checked
      multiplication per factor: the value is the wrapped product and the
      flag is set once any step has overflowed. The iterative and the
      recursive kernels both compute this. A clear flag means the value is
      exact. */
  function CheckedFact(n: u64): (r: Checked)
    ensures !r.overflow ==> r.value == Fact(n)
  {
    if n == 0 then Checked(1, false)
    else
      var prev := CheckedFact(n - 1);
      var step := MulOvf(prev.value, n);
      Checked(step.value, prev.overflow || step.overflow)
  }

  /** The overflow bit reported by the k-th multiplication alone. */
  function StepOverflow(k: u64): (b: bool)
    requires k >= 1
  {
    MulOvf(CheckedFact(k - 1).value, k).overflow
  }

  /** The accumulator always holds n! modulo 2^64. */
  lemma {:induction false} CheckedFactValue(n: u64)
    ensures CheckedFact(n).value == Fact(n) % TWO64
  {
    if n > 0 {
      CheckedFactValue(n - 1);
      var prev := CheckedFact(n - 1).value;
      assert CheckedFact(n).value == MulWrap(prev, n);
      WrappedStep(Fact(n - 1), prev, n, Fact(n));
    }
  }

  lemma WrappedStep(x: nat, v: u64, n: u64, f: nat)
    requires v == x % TWO64
    requires f == n * x
    ensures MulWrap(v, n) == f % TWO64
  {
    MulWrapOfReduced(x, n);
    assert x * n == f;
  }

  /** Up to 20 no step overflows, so the result is exactly n!. */
  lemma {:induction false} CheckedFactExact(n: u64)
    requires n <= 20
    ensures CheckedFact(n).value == Fact(n) && !CheckedFact(n).overflow
  {
    if n > 0 {
      CheckedFactExact(n - 1);
      FitsThroughTwenty(n);
      assert Fact(n - 1) * n == Fact(n);
    }
  }

  /** The flag is the OR of the overflow bits of steps 1..n. */
  lemma {:induction false} FlagIsOrOfSteps(n: u64)
    ensures CheckedFact(n).overflow <==> exists k: u64 :: 1 <= k <= n && StepOverflow(k)
  {
    if n > 0 {
      FlagIsOrOfSteps(n - 1);
      assert CheckedFact(n).overflow == (CheckedFact(n - 1).overflow || StepOverflow(n));
    }
  }

  /** Once set, the flag stays set for the rest of the product. */
  lemma {:induction false} FlagSticky(m: u64, n: u64)
    requires m <= n
    requires CheckedFact(m).overflow
    ensures CheckedFact(n).overflow
  {
    if m < n {
      FlagSticky(m, n - 1);
    }
  }

  /** The first multiplication that overflows is the 21st, 20! * 21. */
  lemma FirstOverflowingStep(k: u64)
    requires 1 <= k <= 21
    ensures StepOverflow(k) <==> k == 21
  {
    CheckedFactExact(k - 1);
    assert StepOverflow(k) <==> Fact(k - 1) * k >= TWO64;
    assert Fact(k - 1) * k == Fact(k);
    if k <= 20 {
      FitsThroughTwenty(k);
    } else {
      ExceedsFromTwentyOne(k);
    }
  }

  /** The flag is set exactly when n! does not fit in 64 bits. */
  lemma {:induction false} CheckedFactFlag(n: u64)
    ensures CheckedFact(n).overflow <==> n > 20
  {
    if n <= 20 {
      CheckedFactExact(n);
    } else if n == 21 {
      FirstOverflowingStep(21);
    } else {
      CheckedFactFlag(n - 1);
    }
  }

  /** Why the flag must be sticky: from the 67th step on the accumulator is
      0 (2^64 divides 66!), so no later multiplication overflows by itself,
      yet n! is still far beyond 64 bits. A flag that only kept the last
      step's bit would read false here. */
  lemma LaterStepsDoNotOverflow(k: u64)
    requires k >= 67
    ensures CheckedFact(k - 1).value == 0
    ensures !StepOverflow(k) && CheckedFact(k).overflow
  {
    CheckedFactValue(k - 1);
    VanishesFromSixtySix(k - 1);
    CheckedFactFlag(k);
  }

  // ---------------------------------------------------------------------
  // fact_u64_iterative
  // ---------------------------------------------------------------------

  /** `fact_u64_iterative`: a counting loop with a checked multiplication
      per step and a flag that, once set, keeps its value. The loop counter
      is a `uint64_t` compared with `<=`, so for `val == UINT64_MAX` the
      loop never ends; that input is excluded. */
  method FactIterative(val: u64) returns (fv: u64, oflow: bool)
    requires val < U64_MAX
    ensures Checked(fv, oflow) == CheckedFact(val)
    ensures fv == Fact(val) % TWO64
    ensures oflow <==> val > 20
  {
    fv := 1;
    var overflow := false;
    var overflowed := false;
    var i: u64 := 1;
    while i <= val
      invariant 1 <= i <= val + 1
      invariant Checked(fv, overflowed) == CheckedFact(i - 1)
    {
      var product := MulOvf(fv, i);
      overflow := product.overflow;
      overflowed := if overflowed then overflowed else overflow;
      fv := product.value;
      i := i + 1;
    }
    oflow := overflowed;
    CheckedFactValue(val);
    CheckedFactFlag(val);
  }

  // ---------------------------------------------------------------------
  // fact_u64_tabular
  // ---------------------------------------------------------------------

  /** The constant `factorials[]` table: 21 entries, entry k is k! for
      1 <= k <= 20, and entry 0 is a placeholder 0 rather than 0! = 1. */
  const Table: seq<u64> := [
    0, 1, 2, 6, 24, 120, 720, 5040, 40320, 362880,
    3628800, 39916800, 479001600, 6227020800, 87178291200,
    1307674368000, 20922789888000, 355687428096000,
    6402373705728000, 121645100408832000, 2432902008176640000
  ]

  /** Each entry past entry 1 is the previous one times its index. (Entry 1
      is not 1 times entry 0: the placeholder breaks the chain there.) */
  lemma TableRecurrence(k: nat)
    requires 2 <= k < |Table|
    ensures Table[k] == k * Table[k - 1]
  {
  }

  /** Entry k of the table is k! for every k the kernel reads. */
  lemma {:induction false} TableEntry(k: nat)
    requires 1 <= k < |Table|
    ensures Table[k] == Fact(k)
  {
    if k > 1 {
      TableEntry(k - 1);
      TableRecurrence(k);
    }
  }

  /** The table has 21 entries; entry 0 is the placeholder 0, not 0! = 1,
      and every other entry k is k!. */
  lemma TableHoldsFactorials()
    ensures |Table| == 21 && Table[0] == 0 != Fact(0)
    ensures forall k :: 1 <= k < |Table| ==> Table[k] == Fact(k)
  {
    forall k | 1 <= k < |Table|
      ensures Table[k] == Fact(k)
    {
      TableEntry(k);
    }
  }

  /** `fact_u64_tabular`: a bounds check on `0 < val < 21` and a table
      lookup; everything else, 0 included, reports overflow with value 0. */
  function FactTabular(val: u64): (r: Checked)
    ensures r.overflow <==> val == 0 || val > 20
    ensures !r.overflow ==> r.value == Fact(val)
    ensures r.overflow ==> r.value == 0
  {
    TableHoldsFactorials();
    if 0 < val < |Table| then Checked(Table[val], false) else Checked(0, true)
  }

  // ---------------------------------------------------------------------
  // fact_u64_unrolled
  // ---------------------------------------------------------------------

  /** On entry at `case val`, the statement of `case c` runs exactly when
      `val >= c`; once it has run (or been skipped), `ix` is the last factor
      used, or its initial 1 when nothing has run yet. */
  function LastFactor(val: nat, c: nat): (ix: nat)
  {
    if val >= c then val - c + 2 else 1
  }

  /** The factors 2, 3, ..., n in increasing order. */
  function Factors(n: nat): (s: seq<nat>)
  {
    if n < 2 then [] else Factors(n - 1) + [n]
  }

  lemma {:induction false} FactorsAre(n: nat)
    requires n >= 1
    ensures |Factors(n)| == n - 1
    ensures forall j :: 0 <= j < n - 1 ==> Factors(n)[j] == j + 2
  {
    if n >= 2 {
      FactorsAre(n - 1);
    }
  }

  /** The statement `fv = fv * ++ix` that cases 20 down to 2 each hold, as
      met on entry at `case val`: it runs exactly when `val >= c`. The
      multiplication is C's unchecked one; on this chain it never wraps. */
  method FallThroughCase(val: u64, c: u64, ix: u64, fv: u64, ghost multipliers: seq<nat>)
    returns (ix': u64, fv': u64, ghost multipliers': seq<nat>)
    requires 2 <= val <= 20 && 2 <= c <= 20
    requires ix == LastFactor(val, c + 1) && fv == Fact(ix) && multipliers == Factors(ix)
    ensures ix' == LastFactor(val, c) && fv' == Fact(ix') && multipliers' == Factors(ix')
  {
    ix', fv', multipliers' := ix, fv, multipliers;
    if val >= c {
      ix' := ix + 1;
      fv' := MulWrap(fv, ix');
      multipliers' := multipliers + [ix'];
      FitsThroughTwenty(ix');
      assert fv * ix' == Fact(ix');
    }
  }

  /** `fact_u64_unrolled`: a `switch` whose cases 20 down to 2 fall through,
      each doing one unchecked `fv = fv * ++ix`. Entering at `case val` runs
      the statements of cases val, val-1, ..., 2, that is the statement of
      `case c` runs exactly when `val >= c`. The ghost `multipliers` records
      the factors used, in order. */
  method FactUnrolled(val: u64) returns (fv: u64, oflow: bool, ghost multipliers: seq<nat>)
    ensures Checked(fv, oflow) == FactTabular(val)
    ensures val == 1 ==> fv == 1 && !oflow
    ensures 2 <= val <= 20 ==> fv == Fact(val) && !oflow
    ensures val == 0 || val > 20 ==> fv == 0 && oflow
    ensures 2 <= val <= 20 ==> multipliers == Factors(val)
    ensures val < 2 || val > 20 ==> multipliers == []
  {
    fv := 1;
    var overflowed := false;
    multipliers := [];
    var ix: u64 := 1;
    if 2 <= val <= 20 {
      ix, fv, multipliers := FallThroughCase(val, 20, ix, fv, multipliers);
      ix, fv, multipliers := FallThroughCase(val, 19, ix, fv, multipliers);
      ix, fv, multipliers := FallThroughCase(val, 18, ix, fv, multipliers);
      ix, fv, multipliers := FallThroughCase(val, 17, ix, fv, multipliers);
      ix, fv, multipliers := FallThroughCase(val, 16, ix, fv, multipliers);
      ix, fv, multipliers := FallThroughCase(val, 15, ix, fv, multipliers);
      ix, fv, multipliers := FallThroughCase(val, 14, ix, fv, multipliers);
      ix, fv, multipliers := FallThroughCase(val, 13, ix, fv, multipliers);
      ix, fv, multipliers := FallThroughCase(val, 12, ix, fv, multipliers);
      ix, fv, multipliers := FallThroughCase(val, 11, ix, fv, multipliers);
      ix, fv, multipliers := FallThroughCase(val, 10, ix, fv, multipliers);
      ix, fv, multipliers := FallThroughCase(val, 9, ix, fv, multipliers);
      ix, fv, multipliers := FallThroughCase(val, 8, ix, fv, multipliers);
      ix, fv, multipliers := FallThroughCase(val, 7, ix, fv, multipliers);
      ix, fv, multipliers := FallThroughCase(val, 6, ix, fv, multipliers);
      ix, fv, multipliers := FallThroughCase(val, 5, ix, fv, multipliers);
      ix, fv, multipliers := FallThroughCase(val, 4, ix, fv, multipliers);
      ix, fv, multipliers := FallThroughCase(val, 3, ix, fv, multipliers);
      ix, fv, multipliers := FallThroughCase(val, 2, ix, fv, multipliers);
    } else if val == 1 {
      fv := 1;
    } else {
      fv := 0;
      overflowed := true;
    }
    oflow := overflowed;
  }

  // ---------------------------------------------------------------------
  // fact_u64_recursive
  // ---------------------------------------------------------------------

  /** `fact_u64_recursive` together with its function-`static bool
      overflowed`. The latch lives as long as the program, starts false, is
      updated after every checked multiplication at every recursion level,
      and is never cleared, so it carries an overflow from one top-level call
      into every later one. */
  class RecursiveKernel {
    var overflowed: bool

    /** The latch as the program starts. */
    constructor ()
      ensures !overflowed
    {
      overflowed := false;
    }

    /** The value is n! modulo 2^64 whatever the latch holds; the latch only
        ever goes from false to true, and the reported flag is the latch. */
    method FactRecursive(val: u64) returns (fv: u64, oflow: bool)
      modifies this
      decreases val
      ensures fv == CheckedFact(val).value
      ensures fv == Fact(val) % TWO64
      ensures overflowed == (old(overflowed) || CheckedFact(val).overflow)
      ensures overflowed == (old(overflowed) || val > 20)
      ensures oflow == overflowed
    {
      if val >= 1 {
        // The inner call also writes *oflow; this level overwrites it below.
        var sub, innerFlag := FactRecursive(val - 1);
        var product := MulOvf(val, sub);
        MulOvfCommutes(val, sub);
        assert CheckedFact(val) == Checked(product.value, CheckedFact(val - 1).overflow || product.overflow);
        fv := product.value;
        overflowed := if overflowed then overflowed else product.overflow;
      } else {
        fv := 1;
      }
      oflow := overflowed;
      CheckedFactValue(val);
      CheckedFactFlag(val);
    }
  }

  /** A call that overflows leaves the latch set, so the same small input
      that reported no overflow on a fresh latch reports overflow afterwards,
      while its value stays exact. */
  method LatchOutlivesOverflow(small: u64, big: u64) returns (before: Checked, after: Checked)
    requires small <= 20 < big
    ensures before.value == after.value == Fact(small)
    ensures !before.overflow && after.overflow
  {
    var kernel := new RecursiveKernel();
    var fv, oflow := kernel.FactRecursive(small);
    before := Checked(fv, oflow);
    var bigValue, bigFlag := kernel.FactRecursive(big);
    fv, oflow := kernel.FactRecursive(small);
    after := Checked(fv, oflow);
    ExactThroughTwenty(small);
  }

  // ---------------------------------------------------------------------
  // The kernels side by side
  // ---------------------------------------------------------------------

  /** For 1 <= n <= 20 all four kernels return n! without overflow (the
      recursive one on a latch no earlier call has set). */
  method KernelsAgree(n: u64) returns (iterative: Checked, recursive: Checked, unrolled: Checked, tabular: Checked)
    requires 1 <= n <= 20
    ensures iterative == recursive == unrolled == tabular
    ensures tabular.value == Fact(n) && !tabular.overflow
  {
    ExactThroughTwenty(n);
    var fv, oflow := FactIterative(n);
    iterative := Checked(fv, oflow);
    assert iterative.value == Fact(n) && !iterative.overflow;
    var kernel := new RecursiveKernel();
    fv, oflow := kernel.FactRecursive(n);
    recursive := Checked(fv, oflow);
    assert recursive.value == Fact(n) && !recursive.overflow;
    ghost var multipliers;
    fv, oflow, multipliers := FactUnrolled(n);
    unrolled := Checked(fv, oflow);
    tabular := FactTabular(n);
  }

  /** On input 0 the kernels disagree: the counting kernels return 0! = 1,
      the unrolled and tabular kernels treat 0 as out of range. */
  method KernelsOnZero() returns (iterative: Checked, recursive: Checked, unrolled: Checked, tabular: Checked)
    ensures iterative == recursive == Checked(1, false)
    ensures unrolled == tabular == Checked(0, true)
  {
    var fv, oflow := FactIterative(0);
    iterative := Checked(fv, oflow);
    var kernel := new RecursiveKernel();
    fv, oflow := kernel.FactRecursive(0);
    recursive := Checked(fv, oflow);
    ghost var multipliers;
    fv, oflow, multipliers := FactUnrolled(0);
    unrolled := Checked(fv, oflow);
    tabular := FactTabular(0);
  }

  /** Past 20 the counting kernels return the wrapped product with the flag
      set; the unrolled and tabular kernels return 0 with the flag set. */
  method KernelsBeyondTwenty(n: u64) returns (iterative: Checked, recursive: Checked, unrolled: Checked, tabular: Checked)
    requires 20 < n < U64_MAX
    ensures iterative == recursive == Checked(Fact(n) % TWO64, true)
    ensures unrolled == tabular == Checked(0, true)
  {
    var fv, oflow := FactIterative(n);
    iterative := Checked(fv, oflow);
    var kernel := new RecursiveKernel();
    fv, oflow := kernel.FactRecursive(n);
    recursive := Checked(fv, oflow);
    ghost var multipliers;
    fv, oflow, multipliers := FactUnrolled(n);
    unrolled := Checked(fv, oflow);
    tabular := FactTabular(n);
  }
}

# Factorial kernels of CF.Factorial.Timings, in Dafny

This project models the four unsigned 64-bit factorial kernels of
`CF.Factorial.Timings/factorials.c`. Each kernel takes a `uint64_t` and returns
`n!` as a `uint64_t`. It also writes an overflow flag through a `bool *oflow`
out-parameter. Each kernel uses a different strategy:

- `fact_u64_iterative` is a counting loop. Every multiplication goes through
  `__builtin_umulll_overflow`, and a per-call flag stays set once any step has
  overflowed.
- `fact_u64_unrolled` is a `switch` whose cases 20 down to 2 fall through.
  Each case does one unchecked `fv = fv * ++ix`. Inputs outside 1..20 give
  `(0, true)`.
- `fact_u64_recursive` recurses with a checked multiplication. Its flag is a
  function-`static` latch that is never cleared, so an overflow in one call is
  reported by every later call.
- `fact_u64_tabular` does a bounds check and a lookup in a constant 21-entry
  table whose entry 0 is a placeholder `0`.

Files:

- `uint64.dfy` (module `UInt64`) holds the `u64` type, C's wrapping `*`
  (`MulWrap`) and `__builtin_umulll_overflow` (`MulOvf`). The kernels' (value,
  flag) pair is the `Checked` datatype.
- `factorial.dfy` (module `FactorialMath`) holds the mathematical `Fact` and
  the bounds that decide every kernel's behaviour. 20! fits in 64 bits and 21!
  does not. From 66! on, n! is a multiple of 2^64. The last fact is proved with
  Legendre's formula for the factors 2 of n!.
- `factorials.dfy` (module `Factorials`) holds the four kernels. It also holds
  `CheckedFact`, the checked product 1·2·…·n that the iterative and recursive
  kernels both compute, and three methods that run the kernels side by side.

Form of the model:

- The iterative kernel is a method with a `while` loop over a 64-bit counter.
- The unrolled kernel is a method. Each fall-through case is one call of
  `FallThroughCase`, which runs its `fv = fv * ++ix` exactly when the entry
  case is at or above it.
- The recursive kernel is the class `RecursiveKernel`. Its field `overflowed`
  is the static latch, and its method `FactRecursive` recurses.
- The tabular kernel is a function over the constant sequence `Table`.

Points where the kernels differ:

- On input 0 the kernels disagree. The iterative kernel, and the recursive
  kernel on a latch no earlier call has set, return `(1, false)`, because
  their loop or recursion does nothing and 0! = 1; after an overflowing call
  the recursive kernel returns `(1, true)`. The unrolled and tabular kernels
  return `(0, true)`, treating 0 as out of range.
  The kernels agree from 1 to 20 (`KernelsAgree`) and disagree on 0
  (`KernelsOnZero`).
- The iterative kernel's flag must be sticky. From step 67 on, the wrapped
  accumulator is 0, so no later multiplication overflows on its own
  (`LaterStepsDoNotOverflow`).

## Model

| member | source | states |
|---|---|---|
| `UInt64.MulWrap` | CF.Factorial.Timings/factorials.c:60-96 | C's unchecked `fv * ++ix` on `uint64_t` is the exact product reduced modulo 2^64; a product that fits comes out unchanged |
| `UInt64.MulOvf` | CF.Factorial.Timings/factorials.c:32 | the builtin stores the wrapped product, and its flag is set exactly when the stored value differs from the exact product (GCC's documented rule for the overflow builtins) |
| `UInt64.MulWrapOfReduced` | CF.Factorial.Timings/factorials.c:32-34 | multiplying a value already reduced modulo 2^64 gives the same wrapped product as multiplying the unreduced value, so a wrapped accumulator stays congruent to the exact product |
| `FactorialMath.TwentyFactorial` | CF.Factorial.Timings/factorials.c:175 | 20! is 2432902008176640000 and UINT64_MAX lies between 20! and 21!, the bound the table and switch rely on |
| `FactorialMath.FitsThroughTwenty` | CF.Factorial.Timings/factorials.c:47-49 | every k! with k <= 20 is below 2^64 |
| `FactorialMath.ExceedsFromTwentyOne` | CF.Factorial.Timings/factorials.c:47-49 | every k! with k >= 21 is at least 2^64 |
| `FactorialMath.VanishesFromSixtySix` | CF.Factorial.Timings/factorials.c:30-35 | from 66! on, n! reduced modulo 2^64 is 0, so the wrapped accumulator of the counting kernels is 0 from then on |
| `Factorials.CheckedFact` | CF.Factorial.Timings/factorials.c:30-35 | the checked product 1·2·…·n that the iterative loop (and the recursion at lines 128-134) computes; when its flag is clear its value is exactly n! |
| `Factorials.CheckedFactValue` | CF.Factorial.Timings/factorials.c:30-35 | the accumulator after n checked multiplications is n! modulo 2^64, for every n |
| `Factorials.CheckedFactExact` | CF.Factorial.Timings/factorials.c:30-35 | for n <= 20 the accumulator is exactly n! and no step has overflowed |
| `Factorials.FlagIsOrOfSteps` | CF.Factorial.Timings/factorials.c:32-33 | the flag after n steps is set iff some step 1..n overflowed on its own |
| `Factorials.FlagSticky` | CF.Factorial.Timings/factorials.c:33 | once the flag is set after m steps, it is still set after any n >= m steps |
| `Factorials.FirstOverflowingStep` | CF.Factorial.Timings/factorials.c:32 | among steps 1..21, only step 21 (20! * 21) overflows |
| `Factorials.CheckedFactFlag` | CF.Factorial.Timings/factorials.c:28-37 | the flag after n steps is set iff n > 20 |
| `Factorials.LaterStepsDoNotOverflow` | CF.Factorial.Timings/factorials.c:32-33 | from step 67 on, the accumulator entering the step is 0 and the step does not overflow, yet the flag is set; only stickiness keeps it set |
| `Factorials.FactIterative` | CF.Factorial.Timings/factorials.c:23-40 | returns the checked product of 1..val: value val! mod 2^64 and flag set iff val > 20; for val = 0 the loop does not run and the result is (1, false) |
| `Factorials.TableRecurrence` | CF.Factorial.Timings/factorials.c:157-175 | each table entry k for 2 <= k <= 20 is k times entry k-1 |
| `Factorials.TableEntry` | CF.Factorial.Timings/factorials.c:156-175 | table entry k is k! for 1 <= k <= 20 |
| `Factorials.TableHoldsFactorials` | CF.Factorial.Timings/factorials.c:154-177 | the table has 21 entries; entry 0 is 0, which is not 0!; every other entry k is k! |
| `Factorials.FactTabular` | CF.Factorial.Timings/factorials.c:151-190 | the flag is set iff val is 0 or above 20; without the flag the value is val!, with it the value is 0 |
| `Factorials.FactorsAre` | CF.Factorial.Timings/factorials.c:57-96 | the factor list used on entry at case n is 2, 3, ..., n: n-1 factors, the j-th being j+2 |
| `Factorials.FallThroughCase` | CF.Factorial.Timings/factorials.c:59-96 | the statement of case c runs iff the entry case is at least c; after it, ix is the last factor, fv is ix! without wrap-around, and the factors used are 2..ix |
| `Factorials.FactUnrolled` | CF.Factorial.Timings/factorials.c:51-112 | returns the same (value, flag) pair as the tabular kernel for every 64-bit input; 1 gives (1, false); 2..20 gives (val!, false) after exactly the multiplications by 2, 3, ..., val; every other input gives (0, true) |
| `Factorials.RecursiveKernel.constructor` | CF.Factorial.Timings/factorials.c:124 | the static latch starts out false |
| `Factorials.RecursiveKernel.FactRecursive` | CF.Factorial.Timings/factorials.c:122-140 | returns val! mod 2^64 whatever the latch holds; afterwards the latch is its old value or'ed with (val > 20), so it never goes from true to false; the reported flag is the latch |
| `Factorials.LatchOutlivesOverflow` | CF.Factorial.Timings/factorials.c:124-137 | on a fresh latch a small input (<= 20) reports (n!, false); after one call with an input above 20, the same small input reports (n!, true) |
| `Factorials.KernelsAgree` | CF.Factorial.Timings/factorials.c:23-190 | for 1 <= n <= 20 the four kernels return the same pair, (n!, false) (the recursive one on a fresh latch) |
| `Factorials.KernelsOnZero` | CF.Factorial.Timings/factorials.c:23-190 | on input 0 the iterative and recursive kernels return (1, false) (the recursive one on a fresh latch) and the unrolled and tabular kernels return (0, true) |
| `Factorials.KernelsBeyondTwenty` | CF.Factorial.Timings/factorials.c:23-190 | for 20 < n < UINT64_MAX the counting kernels return (n! mod 2^64, true) and the unrolled and tabular kernels return (0, true) |

## Left out

- `Factorials.FactIterative`: requires `val < UINT64_MAX`. At `UINT64_MAX` the C loop condition `i_ <= val` is always true and `++i_` wraps to 0, so the loop never ends. That input has no result to state.
- `Factorials.RecursiveKernel.FactRecursive`: call depth is not modelled. The C recursion is `val` frames deep and would exhaust the stack long before a large `val` finishes. The model treats it as plain recursion.
- The `bool *oflow` pointer becomes an out-parameter. In the recursive kernel every level writes `*oflow`. The model drops the inner levels' writes because only the outermost write survives.
- The latch is one object per program run. The C code has no way to reset it, and neither does the model. A fresh `RecursiveKernel` stands for a fresh process.
- `main` in `factorial_timings.c` is not part of this model. It is a benchmark driver: a table of the four kernels, 5,000,000 timed calls with input 20, `gettimeofday`/`clock`/`getrusage` snapshots, floating-point elapsed times and `printf` output. All of it is timing, I/O and floating point.
- `flush_environment_loop` and `flush_environment_recurse` are not part of this model. They only disturb caches and the stack and have no observable result. Their real limit, stack exhaustion at deep recursion, cannot be expressed here.
- `factorials.h` holds only includes and prototypes.

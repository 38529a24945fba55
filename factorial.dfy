/** The mathematical factorial, and the facts about it that fix where each
    64-bit kernel stops being exact: 20! fits in a `uint64_t`, 21! does not,
    and from 66! on the factorial is a multiple of 2^64. */
module FactorialMath {
  import opened UInt64

  function Fact(n: nat): (r: nat)
    ensures r >= 1
  {
    if n == 0 then 1 else n * Fact(n - 1)
  }

  lemma {:induction false} FactMonotone(i: nat, j: nat)
    requires i <= j
    ensures Fact(i) <= Fact(j)
  {
    if i < j {
      FactMonotone(i, j - 1);
      assert Fact(j) == j * Fact(j - 1);
    }
  }

  /** 20! is 2432902008176640000, the largest factorial a `uint64_t` holds. */
  lemma TwentyFactorial()
    ensures Fact(20) == 2432902008176640000
    ensures Fact(20) <= U64_MAX < Fact(21)
  {
    assert Fact(5) == 120;
    assert Fact(10) == 3628800;
    assert Fact(15) == 1307674368000;
  }

  /** Every factorial up to 20! fits in 64 bits. */
  lemma FitsThroughTwenty(k: nat)
    requires k <= 20
    ensures Fact(k) < TWO64
  {
    FactMonotone(k, 20);
    TwentyFactorial();
  }

  /** Up to 20!, reducing modulo 2^64 changes nothing. */
  lemma ExactThroughTwenty(k: nat)
    requires k <= 20
    ensures Fact(k) % TWO64 == Fact(k)
  {
    FitsThroughTwenty(k);
  }

  /** Every factorial from 21! on exceeds the 64-bit range. */
  lemma ExceedsFromTwentyOne(k: nat)
    requires k >= 21
    ensures Fact(k) >= TWO64
  {
    FactMonotone(21, k);
    TwentyFactorial();
  }

  function Pow2(k: nat): (r: nat)
    ensures r >= 1
  {
    if k == 0 then 1 else 2 * Pow2(k - 1)
  }

  /** The even factors of (2k)! are 2, 4, ..., 2k, whose product is
      2^k * k!; the odd factors make up the rest. */
  lemma {:induction false} EvenFactorial(k: nat) returns (odd: nat)
    ensures Fact(2 * k) == Pow2(k) * Fact(k) * odd
  {
    if k == 0 {
      odd := 1;
    } else {
      var prev := EvenFactorial(k - 1);
      EvenFactorialStep(k, prev);
      odd := (2 * k - 1) * prev;
    }
  }

  lemma {:induction false} EvenFactorialStep(k: nat, prev: nat)
    requires k > 0
    requires Fact(2 * k - 2) == Pow2(k - 1) * Fact(k - 1) * prev
    ensures Fact(2 * k) == Pow2(k) * Fact(k) * ((2 * k - 1) * prev)
  {
    var f := Fact(2 * k - 1);
    assert f == (2 * k - 1) * Fact(2 * k - 2);
    SplitEvenFactor(k, Fact(2 * k), f, Pow2(k - 1), Fact(k - 1), prev);
  }

  // The next lemmas each restate one product in a different grouping, kept
  // apart so that each nonlinear step is checked on its own.

  /** 2k * ((2k-1) * 2^(k-1) * (k-1)! * c) is 2^k * k! times (2k-1) * c. */
  lemma SplitEvenFactor(k: int, f2k: int, f2k1: int, p: int, f: int, c: int)
    requires f2k == (2 * k) * f2k1
    requires f2k1 == (2 * k - 1) * (p * f * c)
    ensures f2k == (2 * p) * (k * f) * ((2 * k - 1) * c)
  {
  }

  lemma {:induction false} Pow2Add(i: nat, j: nat)
    ensures Pow2(i + j) == Pow2(i) * Pow2(j)
  {
    if j > 0 {
      Pow2Add(i, j - 1);
    }
  }

  /** The number of factors 2 in n! (Legendre's formula for the prime 2):
      n/2 + n/4 + n/8 + ... */
  function Twos(n: nat): (t: nat)
  {
    if n < 2 then 0 else n / 2 + Twos(n / 2)
  }

  /** 2^Twos(n) divides n!. */
  lemma {:induction false} Legendre(n: nat) returns (q: nat)
    ensures Fact(n) == Pow2(Twos(n)) * q
  {
    if n < 2 {
      q := Fact(n);
    } else if n % 2 == 0 {
      var k := n / 2;
      var odd := EvenFactorial(k);
      var r := Legendre(k);
      Pow2Add(k, Twos(k));
      q := r * odd;
      MergePowersOfTwo(Fact(n), Pow2(k), Fact(k), odd, Pow2(Twos(k)), r);
    } else {
      var r := Legendre(n - 1);
      assert Twos(n - 1) == Twos(n);
      q := n * r;
      PullPowerOfTwoOut(Fact(n), n, Fact(n - 1), Pow2(Twos(n)), r);
    }
  }

  /** 2^k * k! * odd, with k! = 2^t * r, is 2^k * 2^t times r * odd. */
  lemma MergePowersOfTwo(f: int, p: int, g: int, odd: int, p2: int, r: int)
    requires f == p * g * odd
    requires g == p2 * r
    ensures f == (p * p2) * (r * odd)
  {
  }

  /** n * (2^t * r) is 2^t times n * r. */
  lemma PullPowerOfTwoOut(f: int, n: int, g: int, p: int, r: int)
    requires f == n * g
    requires g == p * r
    ensures f == p * (n * r)
  {
  }

  lemma Pow2SixtyFour()
    ensures Pow2(64) == TWO64
  {
    assert Pow2(4) == 0x10;
    assert Pow2(8) == 0x100;
    assert Pow2(12) == 0x1000;
    assert Pow2(16) == 0x1_0000;
    Pow2Add(16, 16);
    Pow2Add(32, 32);
  }

  /** 2^64 divides n! once n! holds at least 64 factors 2. */
  lemma MultipleOfTwo64(n: nat) returns (q: nat)
    requires Twos(n) >= 64
    ensures Fact(n) == q * TWO64
  {
    var r := Legendre(n);
    var e := Twos(n) - 64;
    Pow2Add(64, e);
    Pow2SixtyFour();
    q := Pow2(e) * r;
    SplitOffTwo64(Fact(n), Pow2(Twos(n)), r, TWO64, Pow2(e));
  }

  /** 2^t * r with 2^t = 2^64 * 2^e is (2^e * r) times 2^64. */
  lemma SplitOffTwo64(f: int, p: int, r: int, a: int, b: int)
    requires f == p * r
    requires p == a * b
    ensures f == (b * r) * a
  {
  }

  /** 66! holds 33 + 16 + 8 + 4 + 2 + 1 = 64 factors 2. */
  lemma SixtySixFactorialDivisible() returns (q: nat)
    ensures Fact(66) == q * TWO64
  {
    assert Twos(4) == 3;
    assert Twos(16) == 15;
    assert Twos(66) == 64;
    q := MultipleOfTwo64(66);
  }

  /** Every factorial from 66! on is a multiple of 2^64. */
  lemma {:induction false} MultipleFromSixtySix(k: nat) returns (q: nat)
    requires k >= 66
    ensures Fact(k) == q * TWO64
  {
    if k == 66 {
      q := SixtySixFactorialDivisible();
    } else {
      var prev := MultipleFromSixtySix(k - 1);
      q := k * prev;
    }
  }

  /** A factorial reduced modulo 2^64 is 0 from 66! on. */
  lemma VanishesFromSixtySix(k: nat)
    requires k >= 66
    ensures Fact(k) % TWO64 == 0
  {
    var q := MultipleFromSixtySix(k);
    ModAddMultiple(q, 0);
  }
}

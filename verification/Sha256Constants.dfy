/** Where the constants of SHA-256 come from, and what its bit functions do (FIPS 180-4, sections 4.1.2,
    4.2.2 and 5.3.3). */
module Sha256Constants {
  import opened Sha256

  // ----- Primes -----

  ghost predicate IsPrime(n: nat) {
    n >= 2 && forall d :: 2 <= d < n ==> n % d != 0
  }

  predicate HasFactor(n: nat, d: nat)
    requires d > 0
  {
    d < n && n % d == 0
  }

  predicate IsSplit(n: nat) {
    || HasFactor(n, 2) || HasFactor(n, 3) || HasFactor(n, 5) || HasFactor(n, 7) || HasFactor(n, 11) || HasFactor(n, 13)
    || HasFactor(n, 17)
  }

  lemma Through(n: nat, d: nat, e: nat)
    requires d > 0 && e > 0 && n % d == 0 && d % e == 0
    ensures n % e == 0
  {
    var q, r := n / d, d / e;
    assert n == q * d && d == r * e;
    assert n == (q * r) * e;
    DivModUnique(n, e, q * r, 0);
  }

  lemma NotSplit(n: nat, d: nat)
    requires !IsSplit(n) && 2 <= d <= 17 && d < n
    ensures n % d != 0
  {
    assert d % 2 != 0 && d % 3 != 0 ==> d == 5 || d == 7 || d == 11 || d == 13 || d == 17;
    if n % d == 0 {
      Through(n, d, if d % 2 == 0 then 2 else if d % 3 == 0 then 3 else d);
    }
  }

  /** Below 18 * 18, trying the primes up to 17 is enough. */
  lemma {:induction false} PrimeIff(n: nat)
    requires 2 <= n < 324
    ensures IsPrime(n) <==> !IsSplit(n)
  {
    if !IsSplit(n) {
      forall d | 2 <= d < n ensures n % d != 0 {
        if n % d == 0 {
          Cofactor(n, d, n / d);
          NotSplit(n, if d <= 17 then d else n / d);
        }
      }
    }
  }

  lemma Cofactor(n: nat, d: nat, q: nat)
    requires 2 <= d < n < 324 && n % d == 0 && q == n / d
    ensures 2 <= q < n && n % q == 0 && (d <= 17 || q <= 17)
  {
    assert n == d * q;
    TimesAtLeast(d, q);
    DivModUnique(n, q, d, 0);
  }

  lemma TimesAtLeast(d: nat, q: nat)
    requires d >= 2
    ensures d * q >= 2 * q && (q <= 1 ==> d * q <= d) && (d >= 18 && q >= 18 ==> d * q >= 324)
  {
    if d >= 18 && q >= 18 {
      assert d * q >= 18 * q;
    }
  }

  /** How many primes are smaller than `n`. */
  ghost function PrimesBelow(n: nat): nat {
    if n == 0 then 0 else PrimesBelow(n - 1) + (if IsPrime(n - 1) then 1 else 0)
  }

  /** `p` is the prime with `t` smaller ones. */
  ghost predicate IsNthPrime(t: nat, p: nat) {
    IsPrime(p) && PrimesBelow(p) == t
  }

  predicate OnlySplit(p: nat, q: nat)
    decreases q - p
  {
    p + 1 >= q || (IsSplit(p + 1) && OnlySplit(p + 1, q))
  }

  lemma {:induction false} NothingBetween(p: nat, q: nat)
    requires 2 <= p < q <= 324 && OnlySplit(p, q)
    ensures PrimesBelow(q) == PrimesBelow(p + 1)
    decreases q - p
  {
    if p + 1 < q {
      PrimeIff(p + 1);
      NothingBetween(p + 1, q);
    }
  }

  lemma NextPrime(t: nat, p: nat, q: nat)
    requires IsNthPrime(t, p) && p < q < 324 && !IsSplit(q) && OnlySplit(p, q)
    ensures IsNthPrime(t + 1, q)
  {
    PrimeIff(q);
    NothingBetween(p, q);
  }

  lemma FirstPrime()
    ensures IsNthPrime(0, 2)
  {
  }

  // ----- Roots -----

  const TWO_TO_32: nat := 0x1_0000_0000

  /** `k` is the leading 32 bits of the fraction of the cube root of `p`. */
  ghost predicate IsCubeRootFraction(k: Word, p: nat) {
    exists whole: nat :: Cubes(whole * TWO_TO_32 + k as nat, p)
  }

  predicate Cubes(x: nat, p: nat) {
    x * x * x <= p * TWO_TO_32 * TWO_TO_32 * TWO_TO_32 < (x + 1) * (x + 1) * (x + 1)
  }

  ghost predicate IsSquareRootFraction(k: Word, p: nat) {
    exists whole: nat :: Squares(whole * TWO_TO_32 + k as nat, p)
  }

  predicate Squares(x: nat, p: nat) {
    x * x <= p * TWO_TO_32 * TWO_TO_32 < (x + 1) * (x + 1)
  }

  ghost predicate IsConstant(t: nat) {
    t < 64 && exists p :: IsNthPrime(t, p) && IsCubeRootFraction(K()[t], p)
  }

  /** One constant, and on to the next prime. */
  lemma Constant(t: nat, p: nat, q: nat, whole: nat, k: Word)
    requires t < 64 && IsNthPrime(t, p) && K()[t] == k && Cubes(whole * TWO_TO_32 + k as nat, p)
    requires p < q < 324 && !IsSplit(q) && OnlySplit(p, q)
    ensures IsConstant(t) && IsNthPrime(t + 1, q)
  {
    NextPrime(t, p, q);
    hide K, IsNthPrime, Cubes;
  }

  lemma Constants0()
    ensures IsNthPrime(8, 23) && forall t :: 0 <= t < 8 ==> IsConstant(t)
  {
    hide IsNthPrime, IsConstant;
    FirstPrime();
    Constant(0, 2, 3, 1, 0x428a2f98);
    Constant(1, 3, 5, 1, 0x71374491);
    Constant(2, 5, 7, 1, 0xb5c0fbcf);
    Constant(3, 7, 11, 1, 0xe9b5dba5);
    Constant(4, 11, 13, 2, 0x3956c25b);
    Constant(5, 13, 17, 2, 0x59f111f1);
    Constant(6, 17, 19, 2, 0x923f82a4);
    Constant(7, 19, 23, 2, 0xab1c5ed5);
  }

  lemma Constants8()
    ensures IsNthPrime(16, 59) && forall t :: 8 <= t < 16 ==> IsConstant(t)
  {
    hide IsNthPrime, IsConstant;
    Constants0();
    Constant(8, 23, 29, 2, 0xd807aa98);
    Constant(9, 29, 31, 3, 0x12835b01);
    Constant(10, 31, 37, 3, 0x243185be);
    Constant(11, 37, 41, 3, 0x550c7dc3);
    Constant(12, 41, 43, 3, 0x72be5d74);
    Constant(13, 43, 47, 3, 0x80deb1fe);
    Constant(14, 47, 53, 3, 0x9bdc06a7);
    Constant(15, 53, 59, 3, 0xc19bf174);
  }

  lemma Constants16()
    ensures IsNthPrime(24, 97) && forall t :: 16 <= t < 24 ==> IsConstant(t)
  {
    hide IsNthPrime, IsConstant;
    Constants8();
    Constant(16, 59, 61, 3, 0xe49b69c1);
    Constant(17, 61, 67, 3, 0xefbe4786);
    Constant(18, 67, 71, 4, 0x0fc19dc6);
    Constant(19, 71, 73, 4, 0x240ca1cc);
    Constant(20, 73, 79, 4, 0x2de92c6f);
    Constant(21, 79, 83, 4, 0x4a7484aa);
    Constant(22, 83, 89, 4, 0x5cb0a9dc);
    Constant(23, 89, 97, 4, 0x76f988da);
  }

  lemma Constants24()
    ensures IsNthPrime(32, 137) && forall t :: 24 <= t < 32 ==> IsConstant(t)
  {
    hide IsNthPrime, IsConstant;
    Constants16();
    Constant(24, 97, 101, 4, 0x983e5152);
    Constant(25, 101, 103, 4, 0xa831c66d);
    Constant(26, 103, 107, 4, 0xb00327c8);
    Constant(27, 107, 109, 4, 0xbf597fc7);
    Constant(28, 109, 113, 4, 0xc6e00bf3);
    Constant(29, 113, 127, 4, 0xd5a79147);
    Constant(30, 127, 131, 5, 0x06ca6351);
    Constant(31, 131, 137, 5, 0x14292967);
  }

  lemma Constants32()
    ensures IsNthPrime(40, 179) && forall t :: 32 <= t < 40 ==> IsConstant(t)
  {
    hide IsNthPrime, IsConstant;
    Constants24();
    Constant(32, 137, 139, 5, 0x27b70a85);
    Constant(33, 139, 149, 5, 0x2e1b2138);
    Constant(34, 149, 151, 5, 0x4d2c6dfc);
    Constant(35, 151, 157, 5, 0x53380d13);
    Constant(36, 157, 163, 5, 0x650a7354);
    Constant(37, 163, 167, 5, 0x766a0abb);
    Constant(38, 167, 173, 5, 0x81c2c92e);
    Constant(39, 173, 179, 5, 0x92722c85);
  }

  lemma Constants40()
    ensures IsNthPrime(48, 227) && forall t :: 40 <= t < 48 ==> IsConstant(t)
  {
    hide IsNthPrime, IsConstant;
    Constants32();
    Constant(40, 179, 181, 5, 0xa2bfe8a1);
    Constant(41, 181, 191, 5, 0xa81a664b);
    Constant(42, 191, 193, 5, 0xc24b8b70);
    Constant(43, 193, 197, 5, 0xc76c51a3);
    Constant(44, 197, 199, 5, 0xd192e819);
    Constant(45, 199, 211, 5, 0xd6990624);
    Constant(46, 211, 223, 5, 0xf40e3585);
    Constant(47, 223, 227, 6, 0x106aa070);
  }

  lemma Constants48()
    ensures IsNthPrime(56, 269) && forall t :: 48 <= t < 56 ==> IsConstant(t)
  {
    hide IsNthPrime, IsConstant;
    Constants40();
    Constant(48, 227, 229, 6, 0x19a4c116);
    Constant(49, 229, 233, 6, 0x1e376c08);
    Constant(50, 233, 239, 6, 0x2748774c);
    Constant(51, 239, 241, 6, 0x34b0bcb5);
    Constant(52, 241, 251, 6, 0x391c0cb3);
    Constant(53, 251, 257, 6, 0x4ed8aa4a);
    Constant(54, 257, 263, 6, 0x5b9cca4f);
    Constant(55, 263, 269, 6, 0x682e6ff3);
  }

  lemma Constants56()
    ensures IsNthPrime(64, 313) && forall t :: 56 <= t < 64 ==> IsConstant(t)
  {
    hide IsNthPrime, IsConstant;
    Constants48();
    Constant(56, 269, 271, 6, 0x748f82ee);
    Constant(57, 271, 277, 6, 0x78a5636f);
    Constant(58, 277, 281, 6, 0x84c87814);
    Constant(59, 281, 283, 6, 0x8cc70208);
    Constant(60, 283, 293, 6, 0x90befffa);
    Constant(61, 293, 307, 6, 0xa4506ceb);
    Constant(62, 307, 311, 6, 0xbef9a3f7);
    Constant(63, 311, 313, 6, 0xc67178f2);
  }

  /** The round constants are the leading fractional bits of the cube roots of the first 64 primes, in
      order. */
  lemma ConstantsAreCubeRoots()
    ensures forall t :: 0 <= t < 64 ==> IsConstant(t)
  {
    hide IsNthPrime, IsConstant;
    Constants0(); Constants8(); Constants16(); Constants24(); Constants32();
    Constants40(); Constants48(); Constants56();
  }

  ghost predicate IsInitial(t: nat, h: Word) {
    exists p :: IsNthPrime(t, p) && IsSquareRootFraction(h, p)
  }

  lemma SquareRoot(t: nat, p: nat, q: nat, whole: nat, h: Word)
    requires IsNthPrime(t, p) && Squares(whole * TWO_TO_32 + h as nat, p)
    requires p < q < 324 && !IsSplit(q) && OnlySplit(p, q)
    ensures IsInitial(t, h) && IsNthPrime(t + 1, q)
  {
    NextPrime(t, p, q);
    hide IsNthPrime, Squares;
  }

  /** The initial hash value holds those of the square roots of the first eight. */
  lemma InitialIsSquareRoots()
    ensures var h := Words(Initial()); |h| == 8 && forall t :: 0 <= t < 8 ==> IsInitial(t, h[t])
  {
    hide IsNthPrime, IsInitial;
    FirstPrime();
    SquareRoot(0, 2, 3, 1, 0x6a09e667);
    SquareRoot(1, 3, 5, 1, 0xbb67ae85);
    SquareRoot(2, 5, 7, 2, 0x3c6ef372);
    SquareRoot(3, 7, 11, 2, 0xa54ff53a);
    SquareRoot(4, 11, 13, 3, 0x510e527f);
    SquareRoot(5, 13, 17, 3, 0x9b05688c);
    SquareRoot(6, 17, 19, 4, 0x1f83d9ab);
    SquareRoot(7, 19, 23, 4, 0x5be0cd19);
  }

  // ----- The bit functions -----

  lemma WordsAreBits(b: bv32)
    ensures Bits(FromBits(b)) == b
  {
  }

  /** Where the four functions send the highest bit: 2, 13 and 22 places down, and so on. */
  lemma SigmasOfTopBit()
    ensures BigSigma0(0x8000_0000) == 0x20040200 && BigSigma1(0x8000_0000) == 0x02100040
    ensures SmallSigma0(0x8000_0000) == 0x11002000 && SmallSigma1(0x8000_0000) == 0x00205000
  {
  }

  /** And the lowest bit, which a rotation brings round to the top and a shift drops. */
  lemma SigmasOfLowBit()
    ensures BigSigma0(1) == 0x40080400 && BigSigma1(1) == 0x04200080
    ensures SmallSigma0(1) == 0x02004000 && SmallSigma1(1) == 0x0000a000
  {
  }

  lemma ChosenBits(x: bv32, y: bv32, z: bv32)
    ensures (x & y) ^ (!x & z) == (x & y) | (!x & z)
  {
  }

  lemma MajorityBits(x: bv32, y: bv32, z: bv32)
    ensures (x & y) ^ (x & z) ^ (y & z) == (x & y) | (x & z) | (y & z)
  {
  }

  /** Of the bits of `y`, `Ch` has those where `x` has a one, and of those of `z` the others. */
  lemma ChChooses(x: Word, y: Word, z: Word)
    ensures Bits(Ch(x, y, z)) == (Bits(x) & Bits(y)) | (!Bits(x) & Bits(z))
  {
    hide Bits, FromBits;
    ChosenBits(Bits(x), Bits(y), Bits(z));
    WordsAreBits((Bits(x) & Bits(y)) ^ (!Bits(x) & Bits(z)));
  }

  /** `Maj` has a one exactly where two of the three do. */
  lemma MajIsMajority(x: Word, y: Word, z: Word)
    ensures Bits(Maj(x, y, z)) == (Bits(x) & Bits(y)) | (Bits(x) & Bits(z)) | (Bits(y) & Bits(z))
  {
    hide Bits, FromBits;
    MajorityBits(Bits(x), Bits(y), Bits(z));
    WordsAreBits((Bits(x) & Bits(y)) ^ (Bits(x) & Bits(z)) ^ (Bits(y) & Bits(z)));
  }
}

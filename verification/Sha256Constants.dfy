/** Where the constants of SHA-256 come from: sections 4.2.2 and 5.3.3 of FIPS 180-4. */
module Sha256Constants {
  import opened Bytes
  import opened BitStrings
  import opened Sha256

  predicate Factors(d: nat, q: nat, n: nat) { d * q == n }

  /** No product of two smaller numbers above one. */
  ghost predicate Prime(n: nat) { n >= 2 && forall d: nat, q: nat | d >= 2 && q >= 2 :: !Factors(d, q, n) }

  /** `q` is the next prime after `p`. */
  ghost predicate NextPrime(p: nat, q: nat) { p < q && Prime(q) && forall n | p < n < q :: !Prime(n) }

  /** The first 64 primes, in rows of eight. */
  const PRIMES0: seq<nat> := [2, 3, 5, 7, 11, 13, 17, 19]
  const PRIMES8: seq<nat> := [23, 29, 31, 37, 41, 43, 47, 53]
  const PRIMES16: seq<nat> := [59, 61, 67, 71, 73, 79, 83, 89]
  const PRIMES24: seq<nat> := [97, 101, 103, 107, 109, 113, 127, 131]
  const PRIMES32: seq<nat> := [137, 139, 149, 151, 157, 163, 167, 173]
  const PRIMES40: seq<nat> := [179, 181, 191, 193, 197, 199, 211, 223]
  const PRIMES48: seq<nat> := [227, 229, 233, 239, 241, 251, 257, 263]
  const PRIMES56: seq<nat> := [269, 271, 277, 281, 283, 293, 307, 311]

  ghost predicate Consecutive(primes: seq<nat>) {
    forall i | 0 <= i < |primes| - 1 :: NextPrime(primes[i], primes[i + 1])
  }

  /** No divisor among the primes up to 17. */
  predicate NoSmallFactor(n: nat) {
    && (n % 2 != 0 || n == 2) && (n % 3 != 0 || n == 3) && (n % 5 != 0 || n == 5) && (n % 7 != 0 || n == 7)
    && (n % 11 != 0 || n == 11) && (n % 13 != 0 || n == 13) && (n % 17 != 0 || n == 17)
  }

  lemma Multiple2(n: nat, k: nat)
    requires n == 2 * k && k >= 2
    ensures !NoSmallFactor(n)
  {
    assert n % 2 == 0;
  }

  lemma Multiple3(n: nat, k: nat)
    requires n == 3 * k && k >= 2
    ensures !NoSmallFactor(n)
  {
    assert n % 3 == 0;
  }

  lemma Multiple5(n: nat, k: nat)
    requires n == 5 * k && k >= 2
    ensures !NoSmallFactor(n)
  {
    assert n % 5 == 0;
  }

  lemma Multiple7(n: nat, k: nat)
    requires n == 7 * k && k >= 2
    ensures !NoSmallFactor(n)
  {
    assert n % 7 == 0;
  }

  lemma Multiple11(n: nat, k: nat)
    requires n == 11 * k && k >= 2
    ensures !NoSmallFactor(n)
  {
    assert n % 11 == 0;
  }

  lemma Multiple13(n: nat, k: nat)
    requires n == 13 * k && k >= 2
    ensures !NoSmallFactor(n)
  {
    assert n % 13 == 0;
  }

  lemma Multiple17(n: nat, k: nat)
    requires n == 17 * k && k >= 2
    ensures !NoSmallFactor(n)
  {
    assert n % 17 == 0;
  }

  lemma SmallFactor(n: nat, d: nat, q: nat)
    requires Factors(d, q, n) && 2 <= d <= 17 && q >= 2
    ensures !NoSmallFactor(n)
  {
    hide NoSmallFactor;
    if d == 2 {
      Multiple2(n, q);
    } else if d == 3 {
      Multiple3(n, q);
    } else if d == 4 {
      Multiple2(n, 2 * q);
    } else if d == 5 {
      Multiple5(n, q);
    } else if d == 6 {
      Multiple2(n, 3 * q);
    } else if d == 7 {
      Multiple7(n, q);
    } else if d == 8 {
      Multiple2(n, 4 * q);
    } else if d == 9 {
      Multiple3(n, 3 * q);
    } else if d == 10 {
      Multiple2(n, 5 * q);
    } else if d == 11 {
      Multiple11(n, q);
    } else if d == 12 {
      Multiple2(n, 6 * q);
    } else if d == 13 {
      Multiple13(n, q);
    } else if d == 14 {
      Multiple2(n, 7 * q);
    } else if d == 15 {
      Multiple3(n, 5 * q);
    } else if d == 16 {
      Multiple2(n, 8 * q);
    } else {
      Multiple17(n, q);
    }
  }

  lemma Products(a: nat, b: nat)
    requires a >= 18 && b >= 18
    ensures a * b >= 324
  {
  }

  lemma SmallOrCofactor(n: nat, d: nat, q: nat)
    requires Factors(d, q, n) && d >= 2 && q >= 2 && n < 324
    ensures !NoSmallFactor(n)
  {
    hide NoSmallFactor;
    if d <= 17 {
      SmallFactor(n, d, q);
    } else {
      if q > 17 {
        Products(d, q);
      }
      assert Factors(q, d, n);
      SmallFactor(n, q, d);
    }
  }

  /** Below 18 squared a number is prime exactly if it has no small factor. */
  lemma PrimeIff(n: nat)
    requires 2 <= n < 324
    ensures Prime(n) <==> NoSmallFactor(n)
  {
    if NoSmallFactor(n) {
      forall d: nat, q: nat | d >= 2 && q >= 2
        ensures !Factors(d, q, n)
      {
        if Factors(d, q, n) {
          SmallOrCofactor(n, d, q);
        }
      }
    } else {
      assert Factors(2, n / 2, n) || Factors(3, n / 3, n) || Factors(5, n / 5, n) || Factors(7, n / 7, n)
        || Factors(11, n / 11, n) || Factors(13, n / 13, n) || Factors(17, n / 17, n);
    }
  }

  predicate AllComposite(from: nat, count: nat)
    decreases count
  {
    count == 0 || (!NoSmallFactor(from) && AllComposite(from + 1, count - 1))
  }

  lemma {:induction false} CompositeAt(from: nat, count: nat, n: nat)
    requires AllComposite(from, count) && from <= n < from + count
    ensures !NoSmallFactor(n)
    decreases count
  {
    hide NoSmallFactor;
    if from < n {
      CompositeAt(from + 1, count - 1, n);
    }
  }

  lemma Gap(p: nat, count: nat)
    requires 2 <= p && p + 1 + count < 324 && NoSmallFactor(p + 1 + count) && AllComposite(p + 1, count)
    ensures NextPrime(p, p + 1 + count)
  {
    hide NoSmallFactor, Prime, AllComposite;
    var q := p + 1 + count;
    forall n | p < n < q
      ensures !Prime(n)
    {
      CompositeAt(p + 1, count, n);
      PrimeIff(n);
    }
    PrimeIff(q);
  }

  lemma Gaps0()
    ensures NextPrime(2, 3) && NextPrime(3, 5) && NextPrime(5, 7) && NextPrime(7, 11)
  {
    hide NextPrime;
    assert AllComposite(3, 0);
    Gap(2, 0);
    assert AllComposite(4, 1);
    Gap(3, 1);
    assert AllComposite(6, 1);
    Gap(5, 1);
    assert AllComposite(8, 3);
    Gap(7, 3);
  }

  lemma Gaps4()
    ensures NextPrime(11, 13) && NextPrime(13, 17) && NextPrime(17, 19)
  {
    hide NextPrime;
    assert AllComposite(12, 1);
    Gap(11, 1);
    assert AllComposite(14, 3);
    Gap(13, 3);
    assert AllComposite(18, 1);
    Gap(17, 1);
  }

  lemma Consecutive0()
    ensures Consecutive(PRIMES0) && Prime(2) && PRIMES0[0] == 2
  {
    hide NextPrime;
    Gaps0();
    Gaps4();
    PrimeIff(2);
  }

  lemma Gaps8()
    ensures NextPrime(19, 23) && NextPrime(23, 29) && NextPrime(29, 31) && NextPrime(31, 37)
  {
    hide NextPrime;
    assert AllComposite(20, 3);
    Gap(19, 3);
    assert AllComposite(24, 5);
    Gap(23, 5);
    assert AllComposite(30, 1);
    Gap(29, 1);
    assert AllComposite(32, 5);
    Gap(31, 5);
  }

  lemma Gaps12()
    ensures NextPrime(37, 41) && NextPrime(41, 43) && NextPrime(43, 47) && NextPrime(47, 53)
  {
    hide NextPrime;
    assert AllComposite(38, 3);
    Gap(37, 3);
    assert AllComposite(42, 1);
    Gap(41, 1);
    assert AllComposite(44, 3);
    Gap(43, 3);
    assert AllComposite(48, 5);
    Gap(47, 5);
  }

  lemma Consecutive8()
    ensures Consecutive(PRIMES8) && NextPrime(PRIMES0[7], PRIMES8[0])
  {
    hide NextPrime;
    Gaps8();
    Gaps12();
  }

  lemma Gaps16()
    ensures NextPrime(53, 59) && NextPrime(59, 61) && NextPrime(61, 67) && NextPrime(67, 71)
  {
    hide NextPrime;
    assert AllComposite(54, 5);
    Gap(53, 5);
    assert AllComposite(60, 1);
    Gap(59, 1);
    assert AllComposite(62, 5);
    Gap(61, 5);
    assert AllComposite(68, 3);
    Gap(67, 3);
  }

  lemma Gaps20()
    ensures NextPrime(71, 73) && NextPrime(73, 79) && NextPrime(79, 83) && NextPrime(83, 89)
  {
    hide NextPrime;
    assert AllComposite(72, 1);
    Gap(71, 1);
    assert AllComposite(74, 5);
    Gap(73, 5);
    assert AllComposite(80, 3);
    Gap(79, 3);
    assert AllComposite(84, 5);
    Gap(83, 5);
  }

  lemma Consecutive16()
    ensures Consecutive(PRIMES16) && NextPrime(PRIMES8[7], PRIMES16[0])
  {
    hide NextPrime;
    Gaps16();
    Gaps20();
  }

  lemma Gaps24()
    ensures NextPrime(89, 97) && NextPrime(97, 101) && NextPrime(101, 103) && NextPrime(103, 107)
  {
    hide NextPrime;
    assert AllComposite(90, 7);
    Gap(89, 7);
    assert AllComposite(98, 3);
    Gap(97, 3);
    assert AllComposite(102, 1);
    Gap(101, 1);
    assert AllComposite(104, 3);
    Gap(103, 3);
  }

  lemma Gaps28()
    ensures NextPrime(107, 109) && NextPrime(109, 113) && NextPrime(113, 127) && NextPrime(127, 131)
  {
    hide NextPrime;
    assert AllComposite(108, 1);
    Gap(107, 1);
    assert AllComposite(110, 3);
    Gap(109, 3);
    assert AllComposite(114, 13);
    Gap(113, 13);
    assert AllComposite(128, 3);
    Gap(127, 3);
  }

  lemma Consecutive24()
    ensures Consecutive(PRIMES24) && NextPrime(PRIMES16[7], PRIMES24[0])
  {
    hide NextPrime;
    Gaps24();
    Gaps28();
  }

  lemma Gaps32()
    ensures NextPrime(131, 137) && NextPrime(137, 139) && NextPrime(139, 149) && NextPrime(149, 151)
  {
    hide NextPrime;
    assert AllComposite(132, 5);
    Gap(131, 5);
    assert AllComposite(138, 1);
    Gap(137, 1);
    assert AllComposite(140, 9);
    Gap(139, 9);
    assert AllComposite(150, 1);
    Gap(149, 1);
  }

  lemma Gaps36()
    ensures NextPrime(151, 157) && NextPrime(157, 163) && NextPrime(163, 167) && NextPrime(167, 173)
  {
    hide NextPrime;
    assert AllComposite(152, 5);
    Gap(151, 5);
    assert AllComposite(158, 5);
    Gap(157, 5);
    assert AllComposite(164, 3);
    Gap(163, 3);
    assert AllComposite(168, 5);
    Gap(167, 5);
  }

  lemma Consecutive32()
    ensures Consecutive(PRIMES32) && NextPrime(PRIMES24[7], PRIMES32[0])
  {
    hide NextPrime;
    Gaps32();
    Gaps36();
  }

  lemma Gaps40()
    ensures NextPrime(173, 179) && NextPrime(179, 181) && NextPrime(181, 191) && NextPrime(191, 193)
  {
    hide NextPrime;
    assert AllComposite(174, 5);
    Gap(173, 5);
    assert AllComposite(180, 1);
    Gap(179, 1);
    assert AllComposite(182, 9);
    Gap(181, 9);
    assert AllComposite(192, 1);
    Gap(191, 1);
  }

  lemma Gaps44()
    ensures NextPrime(193, 197) && NextPrime(197, 199) && NextPrime(199, 211) && NextPrime(211, 223)
  {
    hide NextPrime;
    assert AllComposite(194, 3);
    Gap(193, 3);
    assert AllComposite(198, 1);
    Gap(197, 1);
    assert AllComposite(200, 11);
    Gap(199, 11);
    assert AllComposite(212, 11);
    Gap(211, 11);
  }

  lemma Consecutive40()
    ensures Consecutive(PRIMES40) && NextPrime(PRIMES32[7], PRIMES40[0])
  {
    hide NextPrime;
    Gaps40();
    Gaps44();
  }

  lemma Gaps48()
    ensures NextPrime(223, 227) && NextPrime(227, 229) && NextPrime(229, 233) && NextPrime(233, 239)
  {
    hide NextPrime;
    assert AllComposite(224, 3);
    Gap(223, 3);
    assert AllComposite(228, 1);
    Gap(227, 1);
    assert AllComposite(230, 3);
    Gap(229, 3);
    assert AllComposite(234, 5);
    Gap(233, 5);
  }

  lemma Gaps52()
    ensures NextPrime(239, 241) && NextPrime(241, 251) && NextPrime(251, 257) && NextPrime(257, 263)
  {
    hide NextPrime;
    assert AllComposite(240, 1);
    Gap(239, 1);
    assert AllComposite(242, 9);
    Gap(241, 9);
    assert AllComposite(252, 5);
    Gap(251, 5);
    assert AllComposite(258, 5);
    Gap(257, 5);
  }

  lemma Consecutive48()
    ensures Consecutive(PRIMES48) && NextPrime(PRIMES40[7], PRIMES48[0])
  {
    hide NextPrime;
    Gaps48();
    Gaps52();
  }

  lemma Gaps56()
    ensures NextPrime(263, 269) && NextPrime(269, 271) && NextPrime(271, 277) && NextPrime(277, 281)
  {
    hide NextPrime;
    assert AllComposite(264, 5);
    Gap(263, 5);
    assert AllComposite(270, 1);
    Gap(269, 1);
    assert AllComposite(272, 5);
    Gap(271, 5);
    assert AllComposite(278, 3);
    Gap(277, 3);
  }

  lemma Gaps60()
    ensures NextPrime(281, 283) && NextPrime(283, 293) && NextPrime(293, 307) && NextPrime(307, 311)
  {
    hide NextPrime;
    assert AllComposite(282, 1);
    Gap(281, 1);
    assert AllComposite(284, 9);
    Gap(283, 9);
    assert AllComposite(294, 13);
    Gap(293, 13);
    assert AllComposite(308, 3);
    Gap(307, 3);
  }

  lemma Consecutive56()
    ensures Consecutive(PRIMES56) && NextPrime(PRIMES48[7], PRIMES56[0])
  {
    hide NextPrime;
    Gaps56();
    Gaps60();
  }

  /** `k` is the first 32 bits of the fractional part of the cube root of `p`, whose integral part is `c`. */
  predicate CubeRootFraction(p: nat, c: nat, k: nat) {
    && k < TWO32
    && var root := c * TWO32 + k;
    root * root * root <= p * (TWO32 * TWO32 * TWO32) < (root + 1) * (root + 1) * (root + 1)
  }

  predicate SquareRootFraction(p: nat, c: nat, h: nat) {
    && h < TWO32
    && var root := c * TWO32 + h;
    root * root <= p * (TWO32 * TWO32) < (root + 1) * (root + 1)
  }

  /** The eight constants of a row, with the integral parts of the roots. */
  predicate CubeRoots(primes: seq<nat>, cs: seq<nat>, ks: seq<nat>) {
    && |primes| == |cs| == |ks| == 8
    && CubeRootFraction(primes[0], cs[0], ks[0]) && CubeRootFraction(primes[1], cs[1], ks[1])
    && CubeRootFraction(primes[2], cs[2], ks[2]) && CubeRootFraction(primes[3], cs[3], ks[3])
    && CubeRootFraction(primes[4], cs[4], ks[4]) && CubeRootFraction(primes[5], cs[5], ks[5])
    && CubeRootFraction(primes[6], cs[6], ks[6]) && CubeRootFraction(primes[7], cs[7], ks[7])
  }

  lemma CubeRoots0()
    ensures CubeRoots(PRIMES0, [1, 1, 1, 1, 2, 2, 2, 2], K0)
  {
  }

  lemma CubeRoots8()
    ensures CubeRoots(PRIMES8, [2, 3, 3, 3, 3, 3, 3, 3], K8)
  {
  }

  lemma CubeRoots16()
    ensures CubeRoots(PRIMES16, [3, 3, 4, 4, 4, 4, 4, 4], K16)
  {
  }

  lemma CubeRoots24()
    ensures CubeRoots(PRIMES24, [4, 4, 4, 4, 4, 4, 5, 5], K24)
  {
  }

  lemma CubeRoots32()
    ensures CubeRoots(PRIMES32, [5, 5, 5, 5, 5, 5, 5, 5], K32)
  {
  }

  lemma CubeRoots40()
    ensures CubeRoots(PRIMES40, [5, 5, 5, 5, 5, 5, 5, 6], K40)
  {
  }

  lemma CubeRoots48()
    ensures CubeRoots(PRIMES48, [6, 6, 6, 6, 6, 6, 6, 6], K48)
  {
  }

  lemma CubeRoots56()
    ensures CubeRoots(PRIMES56, [6, 6, 6, 6, 6, 6, 6, 6], K56)
  {
  }

  /** The round constants come from the cube roots of the first 64 primes, in order. */
  lemma RoundConstants()
    ensures K == K0 + K8 + K16 + K24 + K32 + K40 + K48 + K56
    ensures CubeRoots(PRIMES0, [1, 1, 1, 1, 2, 2, 2, 2], K0) && Consecutive(PRIMES0) && PRIMES0[0] == 2
    ensures CubeRoots(PRIMES8, [2, 3, 3, 3, 3, 3, 3, 3], K8) && Consecutive(PRIMES8)
      && NextPrime(PRIMES0[7], PRIMES8[0])
    ensures CubeRoots(PRIMES16, [3, 3, 4, 4, 4, 4, 4, 4], K16) && Consecutive(PRIMES16)
      && NextPrime(PRIMES8[7], PRIMES16[0])
    ensures CubeRoots(PRIMES24, [4, 4, 4, 4, 4, 4, 5, 5], K24) && Consecutive(PRIMES24)
      && NextPrime(PRIMES16[7], PRIMES24[0])
    ensures CubeRoots(PRIMES32, [5, 5, 5, 5, 5, 5, 5, 5], K32) && Consecutive(PRIMES32)
      && NextPrime(PRIMES24[7], PRIMES32[0])
    ensures CubeRoots(PRIMES40, [5, 5, 5, 5, 5, 5, 5, 6], K40) && Consecutive(PRIMES40)
      && NextPrime(PRIMES32[7], PRIMES40[0])
    ensures CubeRoots(PRIMES48, [6, 6, 6, 6, 6, 6, 6, 6], K48) && Consecutive(PRIMES48)
      && NextPrime(PRIMES40[7], PRIMES48[0])
    ensures CubeRoots(PRIMES56, [6, 6, 6, 6, 6, 6, 6, 6], K56) && Consecutive(PRIMES56)
      && NextPrime(PRIMES48[7], PRIMES56[0])
  {
    hide CubeRoots, Consecutive, NextPrime;
    CubeRoots0();
    Consecutive0();
    CubeRoots8();
    Consecutive8();
    CubeRoots16();
    Consecutive16();
    CubeRoots24();
    Consecutive24();
    CubeRoots32();
    Consecutive32();
    CubeRoots40();
    Consecutive40();
    CubeRoots48();
    Consecutive48();
    CubeRoots56();
    Consecutive56();
  }

  /** The initial hash value comes from the square roots of the first eight primes. */
  lemma InitialValue()
    ensures |H0| == 8
    ensures SquareRootFraction(PRIMES0[0], 1, H0[0]) && SquareRootFraction(PRIMES0[1], 1, H0[1])
    ensures SquareRootFraction(PRIMES0[2], 2, H0[2]) && SquareRootFraction(PRIMES0[3], 2, H0[3])
    ensures SquareRootFraction(PRIMES0[4], 3, H0[4]) && SquareRootFraction(PRIMES0[5], 3, H0[5])
    ensures SquareRootFraction(PRIMES0[6], 4, H0[6]) && SquareRootFraction(PRIMES0[7], 4, H0[7])
  {
  }

  // ----- the logical functions, bit by bit

  /** `Ch` lets `x` choose, `Maj` takes the vote, and rotations move every bit to the right, around the end. */
  lemma BitByBit(x: Word, y: Word, z: Word, n: nat, i: nat)
    requires n < 32 && i < 32
    ensures Ch(x, y, z)[i] == (if x[i] then y[i] else z[i])
    ensures Maj(x, y, z)[i] == (if x[i] == y[i] then x[i] else z[i])
    ensures RotR(x, n)[(i + n) % 32] == x[i]
    ensures ShR(x, n)[i] == (i >= n && x[i - n])
  {
  }

  // ----- chaining

  lemma Shorter(n: nat)
    requires n > 0 && n % 64 == 0
    ensures n >= 64 && (n - 64) % 64 == 0
  {
  }

  /** Block after block, each starting from the hash value of the one before. */
  function Chained(h: seq<Word>, data: seq<byte>): (r: seq<Word>)
    requires |h| == 8 && |data| % 64 == 0
    ensures |r| == 8
    decreases |data|
  {
    hide Compress, AddTo, Rounds, Load, Initial;
    if data == [] then h
    else
      Shorter(|data|);
      Chained(Compress(h, data[..64]), data[64..])
  }

  lemma {:induction false} ChainedLast(h: seq<Word>, data: seq<byte>, block: seq<byte>)
    requires |h| == 8 && |data| % 64 == 0 && |block| == 64
    ensures |data + block| % 64 == 0 && Chained(h, data + block) == Compress(Chained(h, data), block)
    decreases |data|
  {
    hide Compress;
    if data == [] {
      assert data + block == block && block[..64] == block && block[64..] == [];
    } else {
      Shorter(|data|);
      assert (data + block)[..64] == data[..64] && (data + block)[64..] == data[64..] + block;
      ChainedLast(Compress(h, data[..64]), data[64..], block);
    }
  }

  /** The hash value of a padded message, from the first block to the last. */
  lemma {:induction false} FoldIsChained(data: seq<byte>)
    requires |data| % 64 == 0
    ensures Fold(data) == Chained(Initial(), data)
    decreases |data|
  {
    hide Compress, Initial;
    if data != [] {
      var n := |data| - 64;
      FoldIsChained(data[..n]);
      ChainedLast(Initial(), data[..n], data[n..]);
      assert data[..n] + data[n..] == data;
    }
  }
}

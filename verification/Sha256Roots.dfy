/** Where the constants of SHA-256 come from: sections 4.2.2 and 5.3.3 of FIPS 180-4. */
module Sha256Roots {
  import opened Sha256

  // ----- The first sixty-four primes -----

  function Prime(i: nat): nat {
    match i
    case 0 => 2
    case 1 => 3
    case 2 => 5
    case 3 => 7
    case 4 => 11
    case 5 => 13
    case 6 => 17
    case 7 => 19
    case 8 => 23
    case 9 => 29
    case 10 => 31
    case 11 => 37
    case 12 => 41
    case 13 => 43
    case 14 => 47
    case 15 => 53
    case 16 => 59
    case 17 => 61
    case 18 => 67
    case 19 => 71
    case 20 => 73
    case 21 => 79
    case 22 => 83
    case 23 => 89
    case 24 => 97
    case 25 => 101
    case 26 => 103
    case 27 => 107
    case 28 => 109
    case 29 => 113
    case 30 => 127
    case 31 => 131
    case 32 => 137
    case 33 => 139
    case 34 => 149
    case 35 => 151
    case 36 => 157
    case 37 => 163
    case 38 => 167
    case 39 => 173
    case 40 => 179
    case 41 => 181
    case 42 => 191
    case 43 => 193
    case 44 => 197
    case 45 => 199
    case 46 => 211
    case 47 => 223
    case 48 => 227
    case 49 => 229
    case 50 => 233
    case 51 => 239
    case 52 => 241
    case 53 => 251
    case 54 => 257
    case 55 => 263
    case 56 => 269
    case 57 => 271
    case 58 => 277
    case 59 => 281
    case 60 => 283
    case 61 => 293
    case 62 => 307
    case _ => 311
  }

  ghost predicate IsPrime(n: nat) {
    n >= 2 && forall d :: 2 <= d < n ==> n % d != 0
  }

  /** Trial division by the primes below the square root of 361. */
  predicate Undivided(n: nat) {
    && (n % 2 != 0 || n == 2) && (n % 3 != 0 || n == 3) && (n % 5 != 0 || n == 5) && (n % 7 != 0 || n == 7)
    && (n % 11 != 0 || n == 11) && (n % 13 != 0 || n == 13) && (n % 17 != 0 || n == 17)
  }

  lemma Divided2(n: nat, k: nat)
    requires n == 2 * k && k >= 2
    ensures !Undivided(n)
  {
    assert n % 2 == 0;
  }

  lemma Divided3(n: nat, k: nat)
    requires n == 3 * k && k >= 2
    ensures !Undivided(n)
  {
    assert n % 3 == 0;
  }

  lemma Divided5(n: nat, k: nat)
    requires n == 5 * k && k >= 2
    ensures !Undivided(n)
  {
    assert n % 5 == 0;
  }

  lemma Divided7(n: nat, k: nat)
    requires n == 7 * k && k >= 2
    ensures !Undivided(n)
  {
    assert n % 7 == 0;
  }

  lemma Divided11(n: nat, k: nat)
    requires n == 11 * k && k >= 2
    ensures !Undivided(n)
  {
    assert n % 11 == 0;
  }

  lemma Divided13(n: nat, k: nat)
    requires n == 13 * k && k >= 2
    ensures !Undivided(n)
  {
    assert n % 13 == 0;
  }

  lemma Divided17(n: nat, k: nat)
    requires n == 17 * k && k >= 2
    ensures !Undivided(n)
  {
    assert n % 17 == 0;
  }

  lemma SmallFactor(n: nat, d: nat, e: nat)
    requires 2 <= d <= 18 && e >= 2 && n == d * e
    ensures !Undivided(n)
  {
    hide Undivided;
    match d
    case 2 => Divided2(n, e);
    case 3 => Divided3(n, e);
    case 4 => Divided2(n, 2 * e);
    case 5 => Divided5(n, e);
    case 6 => Divided2(n, 3 * e);
    case 7 => Divided7(n, e);
    case 8 => Divided2(n, 4 * e);
    case 9 => Divided3(n, 3 * e);
    case 10 => Divided2(n, 5 * e);
    case 11 => Divided11(n, e);
    case 12 => Divided2(n, 6 * e);
    case 13 => Divided13(n, e);
    case 14 => Divided2(n, 7 * e);
    case 15 => Divided3(n, 5 * e);
    case 16 => Divided2(n, 8 * e);
    case 17 => Divided17(n, e);
    case 18 => Divided2(n, 9 * e);
  }

  lemma Trial(n: nat)
    requires 2 <= n < 361
    ensures IsPrime(n) <==> Undivided(n)
  {
    if Undivided(n) {
      forall d | 2 <= d < n
        ensures n % d != 0
      {
        if n % d == 0 {
          var e := n / d;
          assert n == d * e && e >= 2;
          if d <= 18 {
            SmallFactor(n, d, e);
          } else {
            assert e <= 18;
            SmallFactor(n, e, d);
          }
        }
      }
    }
  }

  /** Between two odd numbers it is enough to look at the odd ones. */
  lemma Gap(lo: nat, hi: nat)
    requires lo % 2 == 1 && 3 <= lo < hi <= lo + 14
    requires lo + 2 < hi ==> !Undivided(lo + 2)
    requires lo + 4 < hi ==> !Undivided(lo + 4)
    requires lo + 6 < hi ==> !Undivided(lo + 6)
    requires lo + 8 < hi ==> !Undivided(lo + 8)
    requires lo + 10 < hi ==> !Undivided(lo + 10)
    requires lo + 12 < hi ==> !Undivided(lo + 12)
    ensures forall n: nat :: lo < n < hi ==> !Undivided(n)
  {
    forall n: nat | lo < n < hi
      ensures !Undivided(n)
    {
      if n % 2 == 0 {
        assert n > 2;
      } else {
        hide Undivided;
        assert n == lo + 2 || n == lo + 4 || n == lo + 6 || n == lo + 8 || n == lo + 10 || n == lo + 12;
      }
    }
  }

  lemma Gaps0()
    ensures Undivided(2) && forall n: nat :: 2 < n < 3 ==> !Undivided(n)
    ensures Undivided(3) && forall n: nat :: 3 < n < 5 ==> !Undivided(n)
    ensures Undivided(5) && forall n: nat :: 5 < n < 7 ==> !Undivided(n)
    ensures Undivided(7) && forall n: nat :: 7 < n < 11 ==> !Undivided(n)
    ensures Undivided(11) && forall n: nat :: 11 < n < 13 ==> !Undivided(n)
    ensures Undivided(13) && forall n: nat :: 13 < n < 17 ==> !Undivided(n)
    ensures Undivided(17) && forall n: nat :: 17 < n < 19 ==> !Undivided(n)
    ensures Undivided(19) && forall n: nat :: 19 < n < 23 ==> !Undivided(n)
  {
    Gap(3, 5);
    Gap(5, 7);
    Gap(7, 11);
    Gap(11, 13);
    Gap(13, 17);
    Gap(17, 19);
    Gap(19, 23);
  }

  lemma Primes0(i: nat)
    requires 0 <= i < 8
    ensures Undivided(Prime(i)) && Prime(i) < Prime(i + 1) && forall n: nat :: Prime(i) < n < Prime(i + 1) ==> !Undivided(n)
  {
    Gaps0();
    hide Undivided;
  }

  lemma Gaps8()
    ensures Undivided(23) && forall n: nat :: 23 < n < 29 ==> !Undivided(n)
    ensures Undivided(29) && forall n: nat :: 29 < n < 31 ==> !Undivided(n)
    ensures Undivided(31) && forall n: nat :: 31 < n < 37 ==> !Undivided(n)
    ensures Undivided(37) && forall n: nat :: 37 < n < 41 ==> !Undivided(n)
    ensures Undivided(41) && forall n: nat :: 41 < n < 43 ==> !Undivided(n)
    ensures Undivided(43) && forall n: nat :: 43 < n < 47 ==> !Undivided(n)
    ensures Undivided(47) && forall n: nat :: 47 < n < 53 ==> !Undivided(n)
    ensures Undivided(53) && forall n: nat :: 53 < n < 59 ==> !Undivided(n)
  {
    Gap(23, 29);
    Gap(29, 31);
    Gap(31, 37);
    Gap(37, 41);
    Gap(41, 43);
    Gap(43, 47);
    Gap(47, 53);
    Gap(53, 59);
  }

  lemma Primes8(i: nat)
    requires 8 <= i < 16
    ensures Undivided(Prime(i)) && Prime(i) < Prime(i + 1) && forall n: nat :: Prime(i) < n < Prime(i + 1) ==> !Undivided(n)
  {
    Gaps8();
    hide Undivided;
  }

  lemma Gaps16()
    ensures Undivided(59) && forall n: nat :: 59 < n < 61 ==> !Undivided(n)
    ensures Undivided(61) && forall n: nat :: 61 < n < 67 ==> !Undivided(n)
    ensures Undivided(67) && forall n: nat :: 67 < n < 71 ==> !Undivided(n)
    ensures Undivided(71) && forall n: nat :: 71 < n < 73 ==> !Undivided(n)
    ensures Undivided(73) && forall n: nat :: 73 < n < 79 ==> !Undivided(n)
    ensures Undivided(79) && forall n: nat :: 79 < n < 83 ==> !Undivided(n)
    ensures Undivided(83) && forall n: nat :: 83 < n < 89 ==> !Undivided(n)
    ensures Undivided(89) && forall n: nat :: 89 < n < 97 ==> !Undivided(n)
  {
    Gap(59, 61);
    Gap(61, 67);
    Gap(67, 71);
    Gap(71, 73);
    Gap(73, 79);
    Gap(79, 83);
    Gap(83, 89);
    Gap(89, 97);
  }

  lemma Primes16(i: nat)
    requires 16 <= i < 24
    ensures Undivided(Prime(i)) && Prime(i) < Prime(i + 1) && forall n: nat :: Prime(i) < n < Prime(i + 1) ==> !Undivided(n)
  {
    Gaps16();
    hide Undivided;
  }

  lemma Gaps24()
    ensures Undivided(97) && forall n: nat :: 97 < n < 101 ==> !Undivided(n)
    ensures Undivided(101) && forall n: nat :: 101 < n < 103 ==> !Undivided(n)
    ensures Undivided(103) && forall n: nat :: 103 < n < 107 ==> !Undivided(n)
    ensures Undivided(107) && forall n: nat :: 107 < n < 109 ==> !Undivided(n)
    ensures Undivided(109) && forall n: nat :: 109 < n < 113 ==> !Undivided(n)
    ensures Undivided(113) && forall n: nat :: 113 < n < 127 ==> !Undivided(n)
    ensures Undivided(127) && forall n: nat :: 127 < n < 131 ==> !Undivided(n)
    ensures Undivided(131) && forall n: nat :: 131 < n < 137 ==> !Undivided(n)
  {
    Gap(97, 101);
    Gap(101, 103);
    Gap(103, 107);
    Gap(107, 109);
    Gap(109, 113);
    Gap(113, 127);
    Gap(127, 131);
    Gap(131, 137);
  }

  lemma Primes24(i: nat)
    requires 24 <= i < 32
    ensures Undivided(Prime(i)) && Prime(i) < Prime(i + 1) && forall n: nat :: Prime(i) < n < Prime(i + 1) ==> !Undivided(n)
  {
    Gaps24();
    hide Undivided;
  }

  lemma Gaps32()
    ensures Undivided(137) && forall n: nat :: 137 < n < 139 ==> !Undivided(n)
    ensures Undivided(139) && forall n: nat :: 139 < n < 149 ==> !Undivided(n)
    ensures Undivided(149) && forall n: nat :: 149 < n < 151 ==> !Undivided(n)
    ensures Undivided(151) && forall n: nat :: 151 < n < 157 ==> !Undivided(n)
    ensures Undivided(157) && forall n: nat :: 157 < n < 163 ==> !Undivided(n)
    ensures Undivided(163) && forall n: nat :: 163 < n < 167 ==> !Undivided(n)
    ensures Undivided(167) && forall n: nat :: 167 < n < 173 ==> !Undivided(n)
    ensures Undivided(173) && forall n: nat :: 173 < n < 179 ==> !Undivided(n)
  {
    Gap(137, 139);
    Gap(139, 149);
    Gap(149, 151);
    Gap(151, 157);
    Gap(157, 163);
    Gap(163, 167);
    Gap(167, 173);
    Gap(173, 179);
  }

  lemma Primes32(i: nat)
    requires 32 <= i < 40
    ensures Undivided(Prime(i)) && Prime(i) < Prime(i + 1) && forall n: nat :: Prime(i) < n < Prime(i + 1) ==> !Undivided(n)
  {
    Gaps32();
    hide Undivided;
  }

  lemma Gaps40()
    ensures Undivided(179) && forall n: nat :: 179 < n < 181 ==> !Undivided(n)
    ensures Undivided(181) && forall n: nat :: 181 < n < 191 ==> !Undivided(n)
    ensures Undivided(191) && forall n: nat :: 191 < n < 193 ==> !Undivided(n)
    ensures Undivided(193) && forall n: nat :: 193 < n < 197 ==> !Undivided(n)
    ensures Undivided(197) && forall n: nat :: 197 < n < 199 ==> !Undivided(n)
    ensures Undivided(199) && forall n: nat :: 199 < n < 211 ==> !Undivided(n)
    ensures Undivided(211) && forall n: nat :: 211 < n < 223 ==> !Undivided(n)
    ensures Undivided(223) && forall n: nat :: 223 < n < 227 ==> !Undivided(n)
  {
    Gap(179, 181);
    Gap(181, 191);
    Gap(191, 193);
    Gap(193, 197);
    Gap(197, 199);
    Gap(199, 211);
    Gap(211, 223);
    Gap(223, 227);
  }

  lemma Primes40(i: nat)
    requires 40 <= i < 48
    ensures Undivided(Prime(i)) && Prime(i) < Prime(i + 1) && forall n: nat :: Prime(i) < n < Prime(i + 1) ==> !Undivided(n)
  {
    Gaps40();
    hide Undivided;
  }

  lemma Gaps48()
    ensures Undivided(227) && forall n: nat :: 227 < n < 229 ==> !Undivided(n)
    ensures Undivided(229) && forall n: nat :: 229 < n < 233 ==> !Undivided(n)
    ensures Undivided(233) && forall n: nat :: 233 < n < 239 ==> !Undivided(n)
    ensures Undivided(239) && forall n: nat :: 239 < n < 241 ==> !Undivided(n)
    ensures Undivided(241) && forall n: nat :: 241 < n < 251 ==> !Undivided(n)
    ensures Undivided(251) && forall n: nat :: 251 < n < 257 ==> !Undivided(n)
    ensures Undivided(257) && forall n: nat :: 257 < n < 263 ==> !Undivided(n)
    ensures Undivided(263) && forall n: nat :: 263 < n < 269 ==> !Undivided(n)
  {
    Gap(227, 229);
    Gap(229, 233);
    Gap(233, 239);
    Gap(239, 241);
    Gap(241, 251);
    Gap(251, 257);
    Gap(257, 263);
    Gap(263, 269);
  }

  lemma Primes48(i: nat)
    requires 48 <= i < 56
    ensures Undivided(Prime(i)) && Prime(i) < Prime(i + 1) && forall n: nat :: Prime(i) < n < Prime(i + 1) ==> !Undivided(n)
  {
    Gaps48();
    hide Undivided;
  }

  lemma Gaps56()
    ensures Undivided(269) && forall n: nat :: 269 < n < 271 ==> !Undivided(n)
    ensures Undivided(271) && forall n: nat :: 271 < n < 277 ==> !Undivided(n)
    ensures Undivided(277) && forall n: nat :: 277 < n < 281 ==> !Undivided(n)
    ensures Undivided(281) && forall n: nat :: 281 < n < 283 ==> !Undivided(n)
    ensures Undivided(283) && forall n: nat :: 283 < n < 293 ==> !Undivided(n)
    ensures Undivided(293) && forall n: nat :: 293 < n < 307 ==> !Undivided(n)
    ensures Undivided(307) && forall n: nat :: 307 < n < 311 ==> !Undivided(n)
  {
    Gap(269, 271);
    Gap(271, 277);
    Gap(277, 281);
    Gap(281, 283);
    Gap(283, 293);
    Gap(293, 307);
    Gap(307, 311);
  }

  lemma Primes56(i: nat)
    requires 56 <= i < 63
    ensures Undivided(Prime(i)) && Prime(i) < Prime(i + 1) && forall n: nat :: Prime(i) < n < Prime(i + 1) ==> !Undivided(n)
  {
    Gaps56();
    hide Undivided;
  }

  /** Prime(i) is prime, and the next prime is Prime(i + 1). */
  lemma PrimesInOrder(i: nat)
    requires i < 63
    ensures Prime(0) == 2 && IsPrime(Prime(i)) && IsPrime(Prime(i + 1)) && Prime(i) < Prime(i + 1)
    ensures forall n: nat :: Prime(i) < n < Prime(i + 1) ==> !IsPrime(n)
  {
    hide Undivided, IsPrime;
    Undividing(i);
    if i + 1 < 63 {
      Undividing(i + 1);
    } else {
      LastPrime();
    }
    InBounds(i);
    InBounds(i + 1);
    Trial(Prime(i));
    Trial(Prime(i + 1));
    forall n: nat | Prime(i) < n < Prime(i + 1)
      ensures !IsPrime(n)
    {
      Trial(n);
    }
  }

  lemma InBounds(i: nat)
    ensures 2 <= Prime(i) < 361
  {
  }

  lemma LastPrime()
    ensures Undivided(Prime(63))
  {
  }

  lemma Undividing(i: nat)
    requires i < 63
    ensures Undivided(Prime(i)) && Prime(i) < Prime(i + 1) && forall n: nat :: Prime(i) < n < Prime(i + 1) ==> !Undivided(n)
  {
    hide Undivided, Prime;
    if i < 8 {
      Primes0(i);
    } else if i < 16 {
      Primes8(i);
    } else if i < 24 {
      Primes16(i);
    } else if i < 32 {
      Primes24(i);
    } else if i < 40 {
      Primes32(i);
    } else if i < 48 {
      Primes40(i);
    } else if i < 56 {
      Primes48(i);
    } else {
      Primes56(i);
    }
  }

  // ----- Their roots -----

  const TWO32 := 0x1_0000_0000

  /** The cube root of p, in units of 2^-32 and rounded down, is x. */
  predicate CubeRoot(p: nat, x: nat) {
    x * x * x <= p * 0x1_0000_0000_0000_0000_0000_0000 < (x + 1) * (x + 1) * (x + 1)
  }

  predicate SquareRoot(p: nat, x: nat) {
    x * x <= p * 0x1_0000_0000_0000_0000 < (x + 1) * (x + 1)
  }

  /** The first 32 bits of the fraction of the cube root of p. */
  ghost predicate CubeFraction(p: nat, w: bv32) {
    exists whole: nat :: CubeRoot(p, whole * TWO32 + w as nat)
  }

  ghost predicate SquareFraction(p: nat, w: bv32) {
    exists whole: nat :: SquareRoot(p, whole * TWO32 + w as nat)
  }

  lemma Cube(p: nat, whole: nat, w: bv32, n: nat, x: nat)
    requires w as nat == n && x == whole * TWO32 + n && CubeRoot(p, x)
    ensures CubeFraction(p, w)
  {
    hide CubeRoot;
    assert CubeRoot(p, whole * TWO32 + w as nat);
  }

  lemma Square(p: nat, whole: nat, w: bv32, n: nat, x: nat)
    requires w as nat == n && x == whole * TWO32 + n && SquareRoot(p, x)
    ensures SquareFraction(p, w)
  {
    hide SquareRoot;
    assert SquareRoot(p, whole * TWO32 + w as nat);
  }

  lemma Cubes0(i: nat)
    requires 0 <= i < 8
    ensures |K| == 64 && CubeFraction(Prime(i), K[i])
  {
    hide CubeFraction;
    match i
    case 0 => Cube(2, 1, K[0], 0x428a2f98, 0x1428a2f98);
    case 1 => Cube(3, 1, K[1], 0x71374491, 0x171374491);
    case 2 => Cube(5, 1, K[2], 0xb5c0fbcf, 0x1b5c0fbcf);
    case 3 => Cube(7, 1, K[3], 0xe9b5dba5, 0x1e9b5dba5);
    case 4 => Cube(11, 2, K[4], 0x3956c25b, 0x23956c25b);
    case 5 => Cube(13, 2, K[5], 0x59f111f1, 0x259f111f1);
    case 6 => Cube(17, 2, K[6], 0x923f82a4, 0x2923f82a4);
    case 7 => Cube(19, 2, K[7], 0xab1c5ed5, 0x2ab1c5ed5);
  }

  lemma Cubes8(i: nat)
    requires 8 <= i < 16
    ensures |K| == 64 && CubeFraction(Prime(i), K[i])
  {
    hide CubeFraction;
    match i
    case 8 => Cube(23, 2, K[8], 0xd807aa98, 0x2d807aa98);
    case 9 => Cube(29, 3, K[9], 0x12835b01, 0x312835b01);
    case 10 => Cube(31, 3, K[10], 0x243185be, 0x3243185be);
    case 11 => Cube(37, 3, K[11], 0x550c7dc3, 0x3550c7dc3);
    case 12 => Cube(41, 3, K[12], 0x72be5d74, 0x372be5d74);
    case 13 => Cube(43, 3, K[13], 0x80deb1fe, 0x380deb1fe);
    case 14 => Cube(47, 3, K[14], 0x9bdc06a7, 0x39bdc06a7);
    case 15 => Cube(53, 3, K[15], 0xc19bf174, 0x3c19bf174);
  }

  lemma Cubes16(i: nat)
    requires 16 <= i < 24
    ensures |K| == 64 && CubeFraction(Prime(i), K[i])
  {
    hide CubeFraction;
    match i
    case 16 => Cube(59, 3, K[16], 0xe49b69c1, 0x3e49b69c1);
    case 17 => Cube(61, 3, K[17], 0xefbe4786, 0x3efbe4786);
    case 18 => Cube(67, 4, K[18], 0x0fc19dc6, 0x40fc19dc6);
    case 19 => Cube(71, 4, K[19], 0x240ca1cc, 0x4240ca1cc);
    case 20 => Cube(73, 4, K[20], 0x2de92c6f, 0x42de92c6f);
    case 21 => Cube(79, 4, K[21], 0x4a7484aa, 0x44a7484aa);
    case 22 => Cube(83, 4, K[22], 0x5cb0a9dc, 0x45cb0a9dc);
    case 23 => Cube(89, 4, K[23], 0x76f988da, 0x476f988da);
  }

  lemma Cubes24(i: nat)
    requires 24 <= i < 32
    ensures |K| == 64 && CubeFraction(Prime(i), K[i])
  {
    hide CubeFraction;
    match i
    case 24 => Cube(97, 4, K[24], 0x983e5152, 0x4983e5152);
    case 25 => Cube(101, 4, K[25], 0xa831c66d, 0x4a831c66d);
    case 26 => Cube(103, 4, K[26], 0xb00327c8, 0x4b00327c8);
    case 27 => Cube(107, 4, K[27], 0xbf597fc7, 0x4bf597fc7);
    case 28 => Cube(109, 4, K[28], 0xc6e00bf3, 0x4c6e00bf3);
    case 29 => Cube(113, 4, K[29], 0xd5a79147, 0x4d5a79147);
    case 30 => Cube(127, 5, K[30], 0x06ca6351, 0x506ca6351);
    case 31 => Cube(131, 5, K[31], 0x14292967, 0x514292967);
  }

  lemma Cubes32(i: nat)
    requires 32 <= i < 40
    ensures |K| == 64 && CubeFraction(Prime(i), K[i])
  {
    hide CubeFraction;
    match i
    case 32 => Cube(137, 5, K[32], 0x27b70a85, 0x527b70a85);
    case 33 => Cube(139, 5, K[33], 0x2e1b2138, 0x52e1b2138);
    case 34 => Cube(149, 5, K[34], 0x4d2c6dfc, 0x54d2c6dfc);
    case 35 => Cube(151, 5, K[35], 0x53380d13, 0x553380d13);
    case 36 => Cube(157, 5, K[36], 0x650a7354, 0x5650a7354);
    case 37 => Cube(163, 5, K[37], 0x766a0abb, 0x5766a0abb);
    case 38 => Cube(167, 5, K[38], 0x81c2c92e, 0x581c2c92e);
    case 39 => Cube(173, 5, K[39], 0x92722c85, 0x592722c85);
  }

  lemma Cubes40(i: nat)
    requires 40 <= i < 48
    ensures |K| == 64 && CubeFraction(Prime(i), K[i])
  {
    hide CubeFraction;
    match i
    case 40 => Cube(179, 5, K[40], 0xa2bfe8a1, 0x5a2bfe8a1);
    case 41 => Cube(181, 5, K[41], 0xa81a664b, 0x5a81a664b);
    case 42 => Cube(191, 5, K[42], 0xc24b8b70, 0x5c24b8b70);
    case 43 => Cube(193, 5, K[43], 0xc76c51a3, 0x5c76c51a3);
    case 44 => Cube(197, 5, K[44], 0xd192e819, 0x5d192e819);
    case 45 => Cube(199, 5, K[45], 0xd6990624, 0x5d6990624);
    case 46 => Cube(211, 5, K[46], 0xf40e3585, 0x5f40e3585);
    case 47 => Cube(223, 6, K[47], 0x106aa070, 0x6106aa070);
  }

  lemma Cubes48(i: nat)
    requires 48 <= i < 56
    ensures |K| == 64 && CubeFraction(Prime(i), K[i])
  {
    hide CubeFraction;
    match i
    case 48 => Cube(227, 6, K[48], 0x19a4c116, 0x619a4c116);
    case 49 => Cube(229, 6, K[49], 0x1e376c08, 0x61e376c08);
    case 50 => Cube(233, 6, K[50], 0x2748774c, 0x62748774c);
    case 51 => Cube(239, 6, K[51], 0x34b0bcb5, 0x634b0bcb5);
    case 52 => Cube(241, 6, K[52], 0x391c0cb3, 0x6391c0cb3);
    case 53 => Cube(251, 6, K[53], 0x4ed8aa4a, 0x64ed8aa4a);
    case 54 => Cube(257, 6, K[54], 0x5b9cca4f, 0x65b9cca4f);
    case 55 => Cube(263, 6, K[55], 0x682e6ff3, 0x6682e6ff3);
  }

  lemma Cubes56(i: nat)
    requires 56 <= i < 64
    ensures |K| == 64 && CubeFraction(Prime(i), K[i])
  {
    hide CubeFraction;
    match i
    case 56 => Cube(269, 6, K[56], 0x748f82ee, 0x6748f82ee);
    case 57 => Cube(271, 6, K[57], 0x78a5636f, 0x678a5636f);
    case 58 => Cube(277, 6, K[58], 0x84c87814, 0x684c87814);
    case 59 => Cube(281, 6, K[59], 0x8cc70208, 0x68cc70208);
    case 60 => Cube(283, 6, K[60], 0x90befffa, 0x690befffa);
    case 61 => Cube(293, 6, K[61], 0xa4506ceb, 0x6a4506ceb);
    case 62 => Cube(307, 6, K[62], 0xbef9a3f7, 0x6bef9a3f7);
    case 63 => Cube(311, 6, K[63], 0xc67178f2, 0x6c67178f2);
  }

  /** The eight words of the initial hash value. */
  lemma InitialWords(i: nat)
    requires i < 8
    ensures |IV| == 8 && SquareFraction(Prime(i), IV[i])
  {
    hide SquareFraction;
    match i
    case 0 => Square(2, 1, IV[0], 0x6a09e667, 0x16a09e667);
    case 1 => Square(3, 1, IV[1], 0xbb67ae85, 0x1bb67ae85);
    case 2 => Square(5, 2, IV[2], 0x3c6ef372, 0x23c6ef372);
    case 3 => Square(7, 2, IV[3], 0xa54ff53a, 0x2a54ff53a);
    case 4 => Square(11, 3, IV[4], 0x510e527f, 0x3510e527f);
    case 5 => Square(13, 3, IV[5], 0x9b05688c, 0x39b05688c);
    case 6 => Square(17, 4, IV[6], 0x1f83d9ab, 0x41f83d9ab);
    case 7 => Square(19, 4, IV[7], 0x5be0cd19, 0x45be0cd19);
  }

  /** The sixty-four constants. */
  lemma Constants(i: nat)
    requires i < 64
    ensures |K| == 64 && CubeFraction(Prime(i), K[i])
  {
    hide CubeFraction, Prime;
    if i < 8 {
      Cubes0(i);
    } else if i < 16 {
      Cubes8(i);
    } else if i < 24 {
      Cubes16(i);
    } else if i < 32 {
      Cubes24(i);
    } else if i < 40 {
      Cubes32(i);
    } else if i < 48 {
      Cubes40(i);
    } else if i < 56 {
      Cubes48(i);
    } else {
      Cubes56(i);
    }
  }
}

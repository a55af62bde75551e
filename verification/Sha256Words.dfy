/** The word operations of SHA-256 (sections 4.1.2 and 6.2.2 of FIPS 180-4). */
module Sha256Words {
  function Xor3(x: bv32, y: bv32, z: bv32): bv32 { x ^ y ^ z }
  function Sum2(x: bv32, y: bv32): bv32 { x + y }
  function Sum4(w: bv32, x: bv32, y: bv32, z: bv32): bv32 { w + x + y + z }
  function Sum5(v: bv32, w: bv32, x: bv32, y: bv32, z: bv32): bv32 { v + w + x + y + z }

  // ----- Section 4.1.2: the six functions -----

  function Ch(x: bv32, y: bv32, z: bv32): bv32 { (x & y) ^ (!x & z) }
  function Maj(x: bv32, y: bv32, z: bv32): bv32 { (x & y) ^ (x & z) ^ (y & z) }
  function BigSigma0(x: bv32): bv32 { Xor3(x.RotateRight(2), x.RotateRight(13), x.RotateRight(22)) }
  function BigSigma1(x: bv32): bv32 { Xor3(x.RotateRight(6), x.RotateRight(11), x.RotateRight(25)) }
  function SmallSigma0(x: bv32): bv32 { Xor3(x.RotateRight(7), x.RotateRight(18), x >> 3) }
  function SmallSigma1(x: bv32): bv32 { Xor3(x.RotateRight(17), x.RotateRight(19), x >> 10) }

  /** Four bytes as a word, the most significant first. */
  function Word4(a: bv8, b: bv8, c: bv8, d: bv8): bv32 {
    ((a as bv32) << 24) | ((b as bv32) << 16) | ((c as bv32) << 8) | (d as bv32)
  }

  datatype Vars = Vars(a: bv32, b: bv32, c: bv32, d: bv32, e: bv32, f: bv32, g: bv32, h: bv32)

  function Nth(v: Vars, i: nat): bv32
    requires i < 8
  {
    [v.a, v.b, v.c, v.d, v.e, v.f, v.g, v.h][i]
  }

  function Round(v: Vars, k: bv32, w: bv32): Vars {
    var t1 := Sum5(v.h, BigSigma1(v.e), Ch(v.e, v.f, v.g), k, w);
    var t2 := Sum2(BigSigma0(v.a), Maj(v.a, v.b, v.c));
    Vars(Sum2(t1, t2), v.a, v.b, v.c, Sum2(v.d, t1), v.e, v.f, v.g)
  }

  // ----- Rotations as the code writes them -----

  function Ror(x: bv32, n: bv6): bv32
    requires 0 < n < 32
  {
    (x >> n) | (x << (32 - n))
  }

  lemma Ror2(x: bv32)
    ensures Ror(x, 2) == x.RotateRight(2)
  {
  }

  lemma Ror6(x: bv32)
    ensures Ror(x, 6) == x.RotateRight(6)
  {
  }

  lemma Ror7(x: bv32)
    ensures Ror(x, 7) == x.RotateRight(7)
  {
  }

  lemma Ror11(x: bv32)
    ensures Ror(x, 11) == x.RotateRight(11)
  {
  }

  lemma Ror13(x: bv32)
    ensures Ror(x, 13) == x.RotateRight(13)
  {
  }

  lemma Ror17(x: bv32)
    ensures Ror(x, 17) == x.RotateRight(17)
  {
  }

  lemma Ror18(x: bv32)
    ensures Ror(x, 18) == x.RotateRight(18)
  {
  }

  lemma Ror19(x: bv32)
    ensures Ror(x, 19) == x.RotateRight(19)
  {
  }

  lemma Ror22(x: bv32)
    ensures Ror(x, 22) == x.RotateRight(22)
  {
  }

  lemma Ror25(x: bv32)
    ensures Ror(x, 25) == x.RotateRight(25)
  {
  }

  lemma SmallSigma0Is(x: bv32)
    ensures Xor3(Ror(x, 7), Ror(x, 18), x >> 3) == SmallSigma0(x)
  {
    hide Ror, Xor3;
    Ror7(x);
    Ror18(x);
  }

  lemma SmallSigma1Is(x: bv32)
    ensures Xor3(Ror(x, 17), Ror(x, 19), x >> 10) == SmallSigma1(x)
  {
    hide Ror, Xor3;
    Ror17(x);
    Ror19(x);
  }

  lemma BigSigma0Is(x: bv32)
    ensures Xor3(Ror(x, 2), Ror(x, 13), Ror(x, 22)) == BigSigma0(x)
  {
    hide Ror, Xor3;
    Ror2(x);
    Ror13(x);
    Ror22(x);
  }

  lemma BigSigma1Is(x: bv32)
    ensures Xor3(Ror(x, 6), Ror(x, 11), Ror(x, 25)) == BigSigma1(x)
  {
    hide Ror, Xor3;
    Ror6(x);
    Ror11(x);
    Ror25(x);
  }

  lemma Commute(a: bv32, b: bv32, c: bv32, d: bv32)
    ensures Sum4(a, b, c, d) == Sum4(d, c, b, a)
  {
  }
}

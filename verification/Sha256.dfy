/** SHA-256 as section 6.2.2 of FIPS 180-4 defines it, and the block function that computes it in place. */
module Sha256 {
  import opened Sha256Words

  const K0: seq<bv32> := [
    0x428a2f98, 0x71374491, 0xb5c0fbcf, 0xe9b5dba5, 0x3956c25b, 0x59f111f1, 0x923f82a4, 0xab1c5ed5,
    0xd807aa98, 0x12835b01, 0x243185be, 0x550c7dc3, 0x72be5d74, 0x80deb1fe, 0x9bdc06a7, 0xc19bf174]

  const K16: seq<bv32> := [
    0xe49b69c1, 0xefbe4786, 0x0fc19dc6, 0x240ca1cc, 0x2de92c6f, 0x4a7484aa, 0x5cb0a9dc, 0x76f988da,
    0x983e5152, 0xa831c66d, 0xb00327c8, 0xbf597fc7, 0xc6e00bf3, 0xd5a79147, 0x06ca6351, 0x14292967]

  const K32: seq<bv32> := [
    0x27b70a85, 0x2e1b2138, 0x4d2c6dfc, 0x53380d13, 0x650a7354, 0x766a0abb, 0x81c2c92e, 0x92722c85,
    0xa2bfe8a1, 0xa81a664b, 0xc24b8b70, 0xc76c51a3, 0xd192e819, 0xd6990624, 0xf40e3585, 0x106aa070]

  const K48: seq<bv32> := [
    0x19a4c116, 0x1e376c08, 0x2748774c, 0x34b0bcb5, 0x391c0cb3, 0x4ed8aa4a, 0x5b9cca4f, 0x682e6ff3,
    0x748f82ee, 0x78a5636f, 0x84c87814, 0x8cc70208, 0x90befffa, 0xa4506ceb, 0xbef9a3f7, 0xc67178f2]

  const K: seq<bv32> := K0 + K16 + K32 + K48

  const IV: seq<bv32> := [
    0x6a09e667, 0xbb67ae85, 0x3c6ef372, 0xa54ff53a, 0x510e527f, 0x9b05688c, 0x1f83d9ab, 0x5be0cd19]

  lemma Tables()
    ensures |K| == 64 && |IV| == 8
  {
  }

  // ----- Section 6.2.2 -----

  /** The first t words of the message schedule. */
  function Schedule(p: seq<bv8>, t: nat): (w: seq<bv32>)
    requires |p| == 64 && t <= 64
    ensures |w| == t
  {
    if t == 0 then []
    else
      var w := Schedule(p, t - 1);
      w + [if t - 1 < 16 then Word4(p[4 * t - 4], p[4 * t - 3], p[4 * t - 2], p[4 * t - 1])
           else Sum4(SmallSigma1(w[t - 3]), w[t - 8], SmallSigma0(w[t - 16]), w[t - 17])]
  }

  function Start(h: seq<bv32>): Vars
    requires |h| == 8
  {
    Vars(h[0], h[1], h[2], h[3], h[4], h[5], h[6], h[7])
  }

  function Rounds(h: seq<bv32>, p: seq<bv8>, t: nat): Vars
    requires |h| == 8 && |p| == 64 && t <= 64
  {
    if t == 0 then Start(h)
    else
      Tables();
      Round(Rounds(h, p, t - 1), K[t - 1], Schedule(p, 64)[t - 1])
  }

  /** The intermediate hash value after one block. */
  function Compress(h: seq<bv32>, p: seq<bv8>): (r: seq<bv32>)
    requires |h| == 8 && |p| == 64
    ensures |r| == 8
  {
    var v := Rounds(h, p, 64);
    seq(8, i requires 0 <= i < 8 => Sum2(h[i], Nth(v, i)))
  }

  /** The hash value after the whole blocks of m. */
  function Digested(m: seq<bv8>): (h: seq<bv32>)
    requires |m| % 64 == 0
    ensures |h| == 8
  {
    Tables();
    if m == [] then IV else Compress(Digested(m[..|m| - 64]), m[|m| - 64..])
  }

  const U64 := 0x1_0000_0000_0000_0000

  /** A number shifted right by k bytes. */
  function Shifted(x: nat, k: nat): nat {
    if k == 0 then x else Shifted(x, k - 1) / 256
  }

  function LowByte(x: nat): bv8 { (x % 256) as bv8 }

  /** The low n bytes of a number, most significant first. */
  function BigEndian(x: nat, n: nat): (s: seq<bv8>)
    ensures |s| == n
  {
    if n == 0 then [] else BigEndian(x / 256, n - 1) + [LowByte(x)]
  }

  function Zeros(n: nat): (s: seq<bv8>)
    ensures |s| == n
  {
    seq(n, i => 0)
  }

  lemma PaddingFits(n: nat)
    ensures (n + (1 + (55 - n) % 64 + 8)) % 64 == 0
  {
  }

  /** Section 5.1.1: a one bit, zeros up to 448 modulo 512, and the length in bits. */
  function Padding(n: nat): (s: seq<bv8>)
    ensures (n + |s|) % 64 == 0
  {
    PaddingFits(n);
    [0x80] + Zeros((55 - n) % 64) + BigEndian(n * 8 % U64, 8)
  }

  function WordBytes(w: bv32): (s: seq<bv8>)
    ensures |s| == 4
  {
    [((w >> 24) & 0xff) as bv8, ((w >> 16) & 0xff) as bv8, ((w >> 8) & 0xff) as bv8, (w & 0xff) as bv8]
  }

  function Bytes(h: seq<bv32>): (s: seq<bv8>)
    ensures |s| == 4 * |h|
  {
    if h == [] then [] else Bytes(h[..|h| - 1]) + WordBytes(h[|h| - 1])
  }

  function Hash(m: seq<bv8>): (d: seq<bv8>)
    ensures |d| == 32
  {
    Bytes(Digested(m + Padding(|m|)))
  }

  // ----- The block function -----

  lemma ScheduleNext(p: seq<bv8>, i: nat)
    requires |p| == 64 && i < 64
    ensures i < 16 ==> Schedule(p, i + 1) == Schedule(p, i) + [Word4(p[4 * i], p[4 * i + 1], p[4 * i + 2], p[4 * i + 3])]
    ensures i >= 16 ==>
              var w := Schedule(p, i);
              Schedule(p, i + 1) == w + [Sum4(w[i - 16], SmallSigma0(w[i - 15]), w[i - 7], SmallSigma1(w[i - 2]))]
  {
    hide SmallSigma0, SmallSigma1, Word4, Sum4;
    if i >= 16 {
      var w := Schedule(p, i);
      Commute(SmallSigma1(w[i - 2]), w[i - 7], SmallSigma0(w[i - 15]), w[i - 16]);
    }
  }

  lemma StoreNext(before: seq<bv32>, w: seq<bv32>, i: nat, x: bv32)
    requires i < |w| && before == w[..i]
    ensures w[i := x][..i + 1] == before + [x]
  {
  }

  /** Word i of the schedule from the words before it. */
  method NextWord(w: array<bv32>, i: nat, ghost p: seq<bv8>)
    requires w.Length == 64 && |p| == 64 && 16 <= i < 64 && w[..i] == Schedule(p, i)
    modifies w
    ensures w[..i + 1] == Schedule(p, i + 1)
  {
    hide SmallSigma0, SmallSigma1, Ror, Sum4, Xor3, Schedule;
    ScheduleNext(p, i);
    ghost var before := w[..i];
    var x15, x2 := w[i - 15], w[i - 2];
    assert x15 == before[i - 15] && x2 == before[i - 2] && w[i - 16] == before[i - 16] && w[i - 7] == before[i - 7];
    var s0 := Xor3(Ror(x15, 7), Ror(x15, 18), x15 >> 3);
    var s1 := Xor3(Ror(x2, 17), Ror(x2, 19), x2 >> 10);
    SmallSigma0Is(x15);
    SmallSigma1Is(x2);
    var x := Sum4(w[i - 16], s0, w[i - 7], s1);
    StoreNext(before, w[..], i, x);
    w[i] := x;
  }

  /** The message schedule, filled in place. */
  method FillSchedule(p: seq<bv8>) returns (w: array<bv32>)
    requires |p| == 64
    ensures fresh(w) && w[..] == Schedule(p, 64)
  {
    hide Word4, Schedule;
    w := new bv32[64];
    var i := 0;
    assert w[..0] == Schedule(p, 0);
    while i < 16
      invariant i <= 16 && w[..i] == Schedule(p, i)
    {
      ScheduleNext(p, i);
      var x := Word4(p[i * 4], p[i * 4 + 1], p[i * 4 + 2], p[i * 4 + 3]);
      StoreNext(w[..i], w[..], i, x);
      w[i] := x;
      i := i + 1;
    }
    while i < 64
      invariant 16 <= i <= 64 && w[..i] == Schedule(p, i)
    {
      NextWord(w, i, p);
      i := i + 1;
    }
    assert w[..] == w[..64];
  }

  /** The 64 rounds over the working variables. */
  method RunRounds(h: seq<bv32>, p: seq<bv8>, w: array<bv32>) returns (v: Vars)
    requires |h| == 8 && |p| == 64 && w[..] == Schedule(p, 64)
    ensures v == Rounds(h, p, 64)
  {
    hide BigSigma0, BigSigma1, Ch, Maj, Ror, Xor3, Sum2, Sum5, Schedule, Rounds;
    Tables();
    RoundsStart(h, p);
    var a, b, c, d := h[0], h[1], h[2], h[3];
    var e, f, g, hh := h[4], h[5], h[6], h[7];
    var i := 0;
    while i < 64
      invariant i <= 64 && Vars(a, b, c, d, e, f, g, hh) == Rounds(h, p, i)
    {
      RoundsNext(h, p, i);
      assert w[i] == w[..][i];
      var t1 := Sum5(hh, Xor3(Ror(e, 6), Ror(e, 11), Ror(e, 25)), Ch(e, f, g), K[i], w[i]);
      var t2 := Sum2(Xor3(Ror(a, 2), Ror(a, 13), Ror(a, 22)), Maj(a, b, c));
      BigSigma1Is(e);
      BigSigma0Is(a);
      hh, g, f, e := g, f, e, Sum2(d, t1);
      d, c, b, a := c, b, a, Sum2(t1, t2);
      i := i + 1;
    }
    v := Vars(a, b, c, d, e, f, g, hh);
  }

  lemma RoundsStart(h: seq<bv32>, p: seq<bv8>)
    requires |h| == 8 && |p| == 64
    ensures Rounds(h, p, 0) == Start(h)
  {
  }

  lemma RoundsNext(h: seq<bv32>, p: seq<bv8>, i: nat)
    requires |h| == 8 && |p| == 64 && i < 64
    ensures |K| == 64 && Rounds(h, p, i + 1) == Round(Rounds(h, p, i), K[i], Schedule(p, 64)[i])
  {
    hide Schedule, Round;
    Tables();
  }

  method Block(h: array<bv32>, p: seq<bv8>)
    requires h.Length == 8 && |p| == 64
    modifies h
    ensures h[..] == Compress(old(h[..]), p)
  {
    hide Sum2, Rounds, Nth;
    var w := FillSchedule(p);
    var v := RunRounds(h[..], p, w);
    forall i | 0 <= i < 8 {
      h[i] := Sum2(h[i], Nth(v, i));
    }
  }
}

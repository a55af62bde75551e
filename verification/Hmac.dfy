/** The streaming hash and the message authentication code the monitor uses. */
module Hmac {
  import opened Sha256

  lemma DigestedNext(m: seq<bv8>, block: seq<bv8>)
    requires |m| % 64 == 0 && |block| == 64
    ensures |m + block| % 64 == 0 && Digested(m + block) == Compress(Digested(m), block)
  {
    hide Compress;
    var all := m + block;
    assert all[..|all| - 64] == m && all[|all| - 64..] == block;
  }

  lemma DigestedNone()
    ensures Digested([]) == IV && |IV| == 8
  {
    Tables();
  }

  /** The bytes of m that make whole blocks. */
  function Whole(m: seq<bv8>): (n: nat)
    ensures n <= |m| && n % 64 == 0 && |m| - n < 64
  {
    |m| - |m| % 64
  }

  lemma StaysOpen(m: seq<bv8>, chunk: seq<bv8>)
    requires |m| % 64 + |chunk| < 64
    ensures Whole(m + chunk) == Whole(m) && |m + chunk| % 64 == |m| % 64 + |chunk|
    ensures (m + chunk)[..Whole(m)] == m[..Whole(m)] && (m + chunk)[Whole(m)..] == m[Whole(m)..] + chunk
  {
    ModAdds(|m|, |chunk|);
  }

  lemma ModAdds(n: nat, k: nat)
    requires n % 64 + k <= 64
    ensures (n + k) % 64 == if n % 64 + k < 64 then n % 64 + k else 0
  {
  }

  lemma FillsUp(m: seq<bv8>, chunk: seq<bv8>)
    requires |m| % 64 + |chunk| == 64
    ensures |m + chunk| % 64 == 0 && Whole(m + chunk) == |m + chunk| && |m[Whole(m)..] + chunk| == 64
    ensures Digested(m + chunk) == Compress(Digested(m[..Whole(m)]), m[Whole(m)..] + chunk)
  {
    hide Digested, Compress;
    ModAdds(|m|, |chunk|);
    DigestedNext(m[..Whole(m)], m[Whole(m)..] + chunk);
    assert m + chunk == m[..Whole(m)] + (m[Whole(m)..] + chunk);
  }

  class Hasher {
    const h: array<bv32>
    const buf: array<bv8>
    var fill: nat
    var total: nat
    /** Everything fed in so far. */
    ghost var msg: seq<bv8>

    ghost predicate Core()
      reads this, h, buf
    {
      && h.Length == 8 && buf.Length == 64 && fill == |msg| % 64
      && buf[..fill] == msg[Whole(msg)..] && h[..] == Digested(msg[..Whole(msg)])
    }

    ghost predicate Valid()
      reads this, h, buf
    {
      Core() && total == |msg| % U64
    }

    constructor ()
      ensures Valid() && msg == [] && fresh(h) && fresh(buf)
    {
      DigestedNone();
      h := new bv32[8](i requires 0 <= i < 8 => IV[i]);
      buf := new bv8[64];
      fill, total, msg := 0, 0, [];
      new;
      assert h[..] == IV;
      assert msg[..0] == [];
    }

    /** Copies into the free part of the buffer. */
    method Copy(chunk: seq<bv8>)
      requires buf.Length == 64 && fill + |chunk| <= 64
      modifies buf
      ensures buf[..fill + |chunk|] == old(buf[..fill]) + chunk
    {
      forall i | fill <= i < fill + |chunk| {
        buf[i] := chunk[i - fill];
      }
    }

    /** Fills the buffer, and empties it into the hash value when it is full. */
    method Absorb(chunk: seq<bv8>)
      requires Core() && 0 < |chunk| <= 64 - fill
      modifies this`fill, this`msg, h, buf
      ensures Core() && msg == old(msg) + chunk
    {
      hide Digested, Compress, Whole;
      ghost var m := msg;
      Copy(chunk);
      fill := fill + |chunk|;
      msg := m + chunk;
      if fill == 64 {
        FillsUp(m, chunk);
        assert buf[..64] == buf[..];
        Block(h, buf[..]);
        fill := 0;
        assert msg[..|msg|] == msg && msg[|msg|..] == [];
      } else {
        StaysOpen(m, chunk);
      }
    }

    method Update(data: seq<bv8>)
      requires Valid()
      modifies this, h, buf
      ensures Valid() && msg == old(msg) + data
    {
      hide Digested, Whole;
      total := (total + |data|) % U64;
      Wraps(|msg|, |data|);
      Feed(data);
    }

    /** The data in pieces that fit the buffer. */
    method Feed(data: seq<bv8>)
      requires Core()
      modifies this`fill, this`msg, h, buf
      ensures Core() && msg == old(msg) + data
    {
      hide Digested, Whole;
      var p := 0;
      assert data[..0] == [];
      while p < |data|
        modifies this`fill, this`msg, h, buf
        invariant p <= |data| && Core() && msg == old(msg) + data[..p]
      {
        var n := 64 - fill;
        if n > |data| - p {
          n := |data| - p;
        }
        assert data[..p + n] == data[..p] + data[p..p + n];
        Absorb(data[p..p + n]);
        p := p + n;
      }
      assert data[..p] == data;
    }

    /** Pads, and gives out the hash of everything that was fed in. */
    method Final() returns (out: seq<bv8>)
      requires Valid()
      modifies this, h, buf
      ensures out == Hash(old(msg))
    {
      hide Digested, Bytes, Padding, BigEndian;
      ghost var m := msg;
      var bits := total * 8 % U64;
      BitsExact(|m|);
      Pad();
      var len := LengthBytes(bits);
      Update(len);
      Padded(m);
      assert msg == m + Padding(|m|);
      AllWhole(msg);
      out := Output();
    }

    /** A one bit, then zeros until eight bytes are left in the block. */
    method Pad()
      requires Valid()
      modifies this, h, buf
      ensures Valid() && msg == old(msg) + Filler((55 - |old(msg)|) % 64)
    {
      hide Digested, Filler, Whole;
      ghost var m, z: nat, all: nat := msg, 0, (55 - |msg|) % 64;
      FillerStart();
      Update([0x80]);
      PadGoes(|m|, z);
      while fill != 56
        invariant Valid() && z <= all && msg == m + Filler(z) && (fill == 56 <==> z == all)
        decreases all - z
      {
        FillerNext(m, z);
        Update([0]);
        z := z + 1;
        PadGoes(|m|, z);
      }
    }

    method Output() returns (out: seq<bv8>)
      requires h.Length == 8
      ensures out == Bytes(h[..])
    {
      out := [];
      var i := 0;
      while i < 8
        invariant i <= 8 && out == Bytes(h[..i])
      {
        assert h[..i + 1][..i] == h[..i];
        out := out + WordBytes(h[i]);
        i := i + 1;
      }
      assert h[..8] == h[..];
    }
  }

  function Filler(z: nat): (s: seq<bv8>)
    ensures |s| == z + 1
  {
    [0x80] + Zeros(z)
  }

  lemma FillerStart()
    ensures Filler(0) == [0x80]
  {
  }

  lemma FillerNext(m: seq<bv8>, z: nat)
    ensures m + Filler(z + 1) == m + Filler(z) + [0]
  {
    assert Zeros(z + 1) == Zeros(z) + [0];
  }

  lemma Padded(m: seq<bv8>)
    ensures m + Filler((55 - |m|) % 64) + BigEndian(|m| * 8 % U64, 8) == m + Padding(|m|)
  {
    hide BigEndian;
  }

  lemma AllWhole(m: seq<bv8>)
    ensures |m| % 64 == 0 ==> Whole(m) == |m| && m[..Whole(m)] == m
  {
  }

  lemma Wraps(a: nat, b: nat)
    ensures (a % U64 + b) % U64 == (a + b) % U64
  {
  }

  lemma BitsExact(n: nat)
    ensures n % U64 * 8 % U64 == n * 8 % U64
  {
    SameResidue(n * 8, n / U64 * 8);
  }

  lemma SameResidue(x: int, k: int)
    ensures (x - k * U64) % U64 == x % U64
  {
    assert x - k * U64 == (x / U64 - k) * U64 + x % U64;
  }

  /** The padding has reached its end exactly when 56 bytes of the block are taken. */
  lemma PadGoes(n: nat, z: nat)
    requires z <= (55 - n) % 64
    ensures (n + (z + 1)) % 64 == 56 <==> z == (55 - n) % 64
  {
  }

  /** The length in bits as eight bytes, the most significant first. */
  method LengthBytes(bits: nat) returns (len: seq<bv8>)
    requires bits < U64
    ensures len == BigEndian(bits, 8)
  {
    hide LowByte;
    len := [];
    var i := 0;
    while i < 8
      invariant i <= 8 && len == BigEndian(Shifted(bits, 8 - i), i)
    {
      assert Shifted(bits, 8 - i) == Shifted(bits, 7 - i) / 256;
      len := len + [LowByte(Shifted(bits, 7 - i))];
      i := i + 1;
    }
  }

  // ----- Every way of splitting a message -----

  function Joined(pieces: seq<seq<bv8>>): seq<bv8> {
    if pieces == [] then [] else Joined(pieces[..|pieces| - 1]) + pieces[|pieces| - 1]
  }

  method HashPieces(pieces: seq<seq<bv8>>) returns (out: seq<bv8>)
    ensures out == Hash(Joined(pieces))
  {
    hide Hash, Hasher.Core;
    var c := new Hasher();
    var i := 0;
    while i < |pieces|
      invariant i <= |pieces| && c.Valid() && c.msg == Joined(pieces[..i]) && fresh(c) && fresh(c.h) && fresh(c.buf)
    {
      assert pieces[..i + 1][..i] == pieces[..i];
      c.Update(pieces[i]);
      i := i + 1;
    }
    assert pieces[..i] == pieces;
    out := c.Final();
  }

  // ----- Section 2 of RFC 2104 -----

  /** The key, hashed first if it is longer than a block, filled up with zeros. */
  function BlockKey(key: seq<bv8>): (k: seq<bv8>)
    ensures |k| == 64
  {
    if |key| > 64 then Hash(key) + Zeros(32) else key + Zeros(64 - |key|)
  }

  function Xored(k: seq<bv8>, x: bv8): (r: seq<bv8>)
    ensures |r| == |k|
  {
    seq(|k|, i requires 0 <= i < |k| => k[i] ^ x)
  }

  function HmacSha256(key: seq<bv8>, msg: seq<bv8>): seq<bv8> {
    Hash(Xored(BlockKey(key), 0x5c) + Hash(Xored(BlockKey(key), 0x36) + msg))
  }

  method Authenticate(key: seq<bv8>, msg: seq<bv8>) returns (out: seq<bv8>)
    ensures out == HmacSha256(key, msg)
  {
    hide Hash, BlockKey, Xored;
    var k := PrepareKey(key);
    var ipad, opad := Pads(k);
    var inner := HashTwo(ipad, msg);
    out := HashTwo(opad, inner);
  }

  method Pads(k: seq<bv8>) returns (ipad: seq<bv8>, opad: seq<bv8>)
    requires |k| == 64
    ensures ipad == Xored(k, 0x36) && opad == Xored(k, 0x5c)
  {
    var inner, outer := new bv8[64], new bv8[64];
    var i := 0;
    while i < 64
      invariant i <= 64
      invariant forall j :: 0 <= j < i ==> inner[j] == k[j] ^ 0x36 && outer[j] == k[j] ^ 0x5c
    {
      inner[i] := k[i] ^ 0x36;
      outer[i] := k[i] ^ 0x5c;
      i := i + 1;
    }
    return inner[..], outer[..];
  }

  method HashTwo(a: seq<bv8>, b: seq<bv8>) returns (out: seq<bv8>)
    ensures out == Hash(a + b)
  {
    hide Hash, Hasher.Core;
    var c := new Hasher();
    c.Update(a);
    c.Update(b);
    assert [] + a + b == a + b;
    out := c.Final();
  }

  method PrepareKey(key: seq<bv8>) returns (block: seq<bv8>)
    ensures block == BlockKey(key)
  {
    hide Hash;
    var first := key;
    if |key| > 64 {
      first := HashTwo(key, []);
      assert key + [] == key;
    }
    var k := new bv8[64](i => 0);
    forall i | 0 <= i < |first| {
      k[i] := first[i];
    }
    assert k[..] == first + Zeros(64 - |first|);
    return k[..];
  }

  /** Compares without stopping at the first difference. */
  method CtEqual(x: seq<bv8>, y: seq<bv8>) returns (same: bool)
    requires |x| == |y|
    ensures same <==> x == y
  {
    var diff: bv8 := 0;
    var i := 0;
    while i < |x|
      invariant i <= |x| && (diff == 0 <==> x[..i] == y[..i])
    {
      Differ(diff, x[i], y[i]);
      assert x[..i + 1] == x[..i] + [x[i]] && y[..i + 1] == y[..i] + [y[i]];
      diff := diff | (x[i] ^ y[i]);
      i := i + 1;
    }
    assert x[..i] == x && y[..i] == y;
    same := diff == 0;
  }

  lemma Differ(diff: bv8, x: bv8, y: bv8)
    ensures diff | (x ^ y) == 0 <==> diff == 0 && x == y
  {
  }
}

/** Bytes and the little-endian loads the parsers share. */
module Bytes {

  newtype Byte = x: int | 0 <= x < 256

  function Rd16(s: seq<Byte>, o: nat): (v: nat)
    requires o + 2 <= |s|
    ensures v < 0x1_0000
  {
    s[o] as nat + 0x100 * (s[o + 1] as nat)
  }

  function Rd32(s: seq<Byte>, o: nat): (v: nat)
    requires o + 4 <= |s|
    ensures v < 0x1_0000_0000
  {
    Rd16(s, o) + 0x1_0000 * Rd16(s, o + 2)
  }

  function Rd64(s: seq<Byte>, o: nat): (v: nat)
    requires o + 8 <= |s|
    ensures v < 0x1_0000_0000_0000_0000
  {
    Rd32(s, o) + 0x1_0000_0000 * Rd32(s, o + 4)
  }

  // ----- The stores the loads undo -----

  function Le16(v: nat): (s: seq<Byte>)
    ensures |s| == 2
  {
    [(v % 0x100) as Byte, (v / 0x100 % 0x100) as Byte]
  }

  function Le32(v: nat): (s: seq<Byte>)
    ensures |s| == 4
  {
    Le16(v % 0x1_0000) + Le16(v / 0x1_0000)
  }

  function Le64(v: nat): (s: seq<Byte>)
    ensures |s| == 8
  {
    Le32(v % 0x1_0000_0000) + Le32(v / 0x1_0000_0000)
  }

  /** A stored number is loaded back from wherever it was put. */
  lemma RdLe16(s: seq<Byte>, o: nat, v: nat)
    requires o + 2 <= |s| && v < 0x1_0000 && s[o..o + 2] == Le16(v)
    ensures Rd16(s, o) == v
  {
    assert s[o] == s[o..o + 2][0] && s[o + 1] == s[o..o + 2][1];
  }

  lemma RdLe32(s: seq<Byte>, o: nat, v: nat)
    requires o + 4 <= |s| && v < 0x1_0000_0000 && s[o..o + 4] == Le32(v)
    ensures Rd32(s, o) == v
  {
    assert s[o..o + 2] == s[o..o + 4][..2] == Le16(v % 0x1_0000);
    assert s[o + 2..o + 4] == s[o..o + 4][2..] == Le16(v / 0x1_0000);
    RdLe16(s, o, v % 0x1_0000);
    RdLe16(s, o + 2, v / 0x1_0000);
  }

  lemma RdLe64(s: seq<Byte>, o: nat, v: nat)
    requires o + 8 <= |s| && v < 0x1_0000_0000_0000_0000 && s[o..o + 8] == Le64(v)
    ensures Rd64(s, o) == v
  {
    assert s[o..o + 4] == s[o..o + 8][..4] == Le32(v % 0x1_0000_0000);
    assert s[o + 4..o + 8] == s[o..o + 8][4..] == Le32(v / 0x1_0000_0000);
    RdLe32(s, o, v % 0x1_0000_0000);
    RdLe32(s, o + 4, v / 0x1_0000_0000);
  }

  /** Loads see only the bytes they read. */
  lemma Rd32Same(s: seq<Byte>, t: seq<Byte>, o: nat)
    requires o + 4 <= |s| && o + 4 <= |t|
    requires forall p :: o <= p < o + 4 ==> s[p] == t[p]
    ensures Rd32(s, o) == Rd32(t, o) && Rd16(s, o) == Rd16(t, o)
  {
  }
}

/** What the assumption on the MAC asks for: that it can be met, and that an injective tag would not be enough. */
module MacExamples {
  import opened AlertRing
  import opened RingReader

  // ----- Sequences of numbers as numbers -----

  function Triangle(n: nat): nat {
    if n == 0 then 0 else Triangle(n - 1) + n
  }

  function Pair(a: nat, b: nat): nat { Triangle(a + b) + b }

  lemma {:induction false} TriangleGrows(n: nat, m: nat)
    requires n < m
    ensures Triangle(n) + n < Triangle(m)
    decreases m
  {
    if n < m - 1 {
      TriangleGrows(n, m - 1);
    }
  }

  lemma PairInjective(a: nat, b: nat, c: nat, d: nat)
    requires Pair(a, b) == Pair(c, d)
    ensures a == c && b == d
  {
    if a + b < c + d {
      TriangleGrows(a + b, c + d);
    } else if c + d < a + b {
      TriangleGrows(c + d, a + b);
    }
  }

  function Number(m: seq<nat>): nat {
    if m == [] then 0 else Pair(m[0], Number(m[1..])) + 1
  }

  lemma {:induction false} NumberInjective(m: seq<nat>, m': seq<nat>)
    requires Number(m) == Number(m')
    ensures m == m'
  {
    hide Pair;
    if m != [] && m' != [] {
      PairInjective(m[0], Number(m[1..]), m'[0], Number(m'[1..]));
      NumberInjective(m[1..], m'[1..]);
      assert m == [m[0]] + m[1..] && m' == [m'[0]] + m'[1..];
    }
  }

  // ----- A MAC that meets the assumption -----

  function Fourfold(m: seq<nat>): seq<nat> { [Number(m), Number(m), Number(m), Number(m)] }

  lemma FourfoldIsIdeal()
    ensures IdealMac(Fourfold)
  {
    forall m, m0, m1, m2, m3 | Spliced(Fourfold, m, m0, m1, m2, m3)
      ensures m == m0 || m == m1 || m == m2 || m == m3
    {
      NumberInjective(m, m0);
    }
  }

  // ----- A MAC that is merely injective -----

  /** Two bodies, and the one a torn copy of the second over the first can have: the kind is the second's. */
  const FIRST: seq<nat> := [MAGIC, 0, 1, 0, 0, 0, 0]
  const SECOND: seq<nat> := [MAGIC, 16, 2, 0, 0, 0, 0]
  const TORN: seq<nat> := [MAGIC, 0, 2, 0, 0, 0, 0]

  function Careless(m: seq<nat>): seq<nat> {
    if m == FIRST then [0, 0, 0, 0]
    else if m == SECOND then [1, 1, 1, 1]
    else if m == TORN then [0, 1, 1, 1]
    else [Number(m) + 2, 0, 0, 0]
  }

  lemma CarelessIsInjective(m: seq<nat>, m': seq<nat>)
    requires Careless(m) == Careless(m')
    ensures m == m'
  {
    hide Number;
    assert Careless(m)[0] == Careless(m')[0] && Careless(m)[1] == Careless(m')[1];
    if Careless(m)[0] >= 2 {
      NumberInjective(m, m');
    }
  }

  lemma CarelessTags()
    ensures FourWords(Careless)
    ensures Careless(FIRST) == [0, 0, 0, 0] && Careless(SECOND) == [1, 1, 1, 1] && Careless(TORN) == [0, 1, 1, 1]
  {
    hide Number;
    assert FIRST[1] != SECOND[1] && FIRST[2] != TORN[2] && SECOND[1] != TORN[1];
  }

  /** With it a torn copy verifies, although it is neither of the two notifications its cells come from. */
  lemma InjectiveIsNotEnough()
    ensures FourWords(Careless) && forall m, m' :: Careless(m) == Careless(m') ==> m == m'
    ensures var a, b, out := FIRST + Careless(FIRST), SECOND + Careless(SECOND), TORN + Careless(TORN);
            && |a| == |b| == |out| == CELLS && Authentic(Careless, a) && Authentic(Careless, b) && Authentic(Careless, out)
            && (forall k :: 0 <= k < CELLS ==> out[k] == a[k] || out[k] == b[k])
            && out != a && out != b
  {
    forall m, m' | Careless(m) == Careless(m')
      ensures m == m'
    {
      CarelessIsInjective(m, m');
    }
    CarelessTags();
    hide Careless, Number;
    var a, b, out := FIRST + Careless(FIRST), SECOND + Careless(SECOND), TORN + Careless(TORN);
    assert a[..MAC_AT] == FIRST && b[..MAC_AT] == SECOND && out[..MAC_AT] == TORN;
    assert out == [MAGIC, 0, 2, 0, 0, 0, 0, 0, 1, 1, 1];
    assert a == [MAGIC, 0, 1, 0, 0, 0, 0, 0, 0, 0, 0];
    assert b == [MAGIC, 16, 2, 0, 0, 0, 0, 1, 1, 1, 1];
  }
}

/** Stable sorting of sections by file offset, characterised independently of how it is done. */
module StableSort {

  datatype Section = Section(offset: nat, size: nat)

  ghost predicate Ascending(r: seq<Section>) {
    forall i, j :: 0 <= i < j < |r| ==> r[i].offset <= r[j].offset
  }

  /** The elements of `s` at one offset, in their order. */
  ghost function AtOffset(s: seq<Section>, k: nat): seq<Section> {
    if s == [] then []
    else if s[|s| - 1].offset == k then AtOffset(s[..|s| - 1], k) + [s[|s| - 1]]
    else AtOffset(s[..|s| - 1], k)
  }

  /** `r` is `s` in ascending order of offset, equal offsets in their original order. */
  ghost predicate StableSortOf(s: seq<Section>, r: seq<Section>) {
    Ascending(r) && forall k: nat :: AtOffset(s, k) == AtOffset(r, k)
  }

  lemma {:induction false} AtOffsetConcat(s: seq<Section>, t: seq<Section>, k: nat)
    ensures AtOffset(s + t, k) == AtOffset(s, k) + AtOffset(t, k)
    decreases |t|
  {
    if t == [] {
      assert s + t == s;
    } else {
      var n := |t| - 1;
      AtOffsetConcat(s, t[..n], k);
      assert (s + t)[..|s + t| - 1] == s + t[..n];
      assert AtOffset(s, k) + (AtOffset(t[..n], k) + [t[n]]) == (AtOffset(s, k) + AtOffset(t[..n], k)) + [t[n]];
    }
  }

  lemma {:induction false} AtOffsetMember(s: seq<Section>, k: nat)
    ensures forall x :: x in AtOffset(s, k) ==> x in s && x.offset == k
    ensures (exists x :: x in s && x.offset == k) ==> AtOffset(s, k) != []
  {
    if s != [] {
      AtOffsetMember(s[..|s| - 1], k);
      assert s == s[..|s| - 1] + [s[|s| - 1]];
    }
  }

  /** A stable sort has only one result. */
  lemma {:induction false} StableUnique(s: seq<Section>, r: seq<Section>, r': seq<Section>)
    requires StableSortOf(s, r) && StableSortOf(s, r')
    ensures r == r'
    decreases |r|
  {
    if r == [] {
      LastInto(r', r);
    } else {
      LastInto(r, r');
      LastInto(r', r);
      var n, n' := |r| - 1, |r'| - 1;
      var k := r[n].offset;
      assert r[n] == AtOffset(r, k)[|AtOffset(r, k)| - 1] == r'[n'];
      forall j: nat
        ensures AtOffset(r[..n], j) == AtOffset(r'[..n'], j)
      {
        assert AtOffset(r, j) == AtOffset(r', j);
        if j == k {
          assert AtOffset(r, j)[..|AtOffset(r, j)| - 1] == AtOffset(r[..n], j);
          assert AtOffset(r', j)[..|AtOffset(r', j)| - 1] == AtOffset(r'[..n'], j);
        }
      }
      StableUnique(r[..n], r[..n], r'[..n']);
    }
  }

  /** The greatest offset of one sorted arrangement does not exceed that of the other. */
  lemma LastInto(r: seq<Section>, r': seq<Section>)
    requires Ascending(r) && Ascending(r') && forall k: nat :: AtOffset(r, k) == AtOffset(r', k)
    ensures r != [] ==> r' != [] && r[|r| - 1].offset <= r'[|r'| - 1].offset
  {
    if r != [] {
      var x := r[|r| - 1];
      AtOffsetMember(r, x.offset);
      AtOffsetMember(r', x.offset);
      assert AtOffset(r', x.offset) == AtOffset(r, x.offset);
      var y := AtOffset(r', x.offset)[0];
      assert y in r' && y.offset == x.offset;
    }
  }

  /** Inserting a new last element after everything not above it keeps a stable sort. */
  lemma InsertStable(s: seq<Section>, r: seq<Section>, x: Section, j: nat)
    requires StableSortOf(s, r) && j <= |r|
    requires j > 0 ==> r[j - 1].offset <= x.offset
    requires j < |r| ==> x.offset < r[j].offset
    ensures StableSortOf(s + [x], r[..j] + [x] + r[j..])
  {
    forall k: nat
      ensures AtOffset(s + [x], k) == AtOffset(r[..j] + [x] + r[j..], k)
    {
      InsertAtOffset(s, r, x, j, k);
    }
  }

  lemma InsertAtOffset(s: seq<Section>, r: seq<Section>, x: Section, j: nat, k: nat)
    requires AtOffset(s, k) == AtOffset(r, k) && j <= |r|
    requires forall i :: j <= i < |r| ==> x.offset < r[i].offset
    ensures AtOffset(s + [x], k) == AtOffset(r[..j] + [x] + r[j..], k)
  {
    hide AtOffset;
    var a, b := r[..j], r[j..];
    AtOffsetConcat(s, [x], k);
    AtOffsetConcat(a + [x], b, k);
    AtOffsetConcat(a, [x], k);
    AtOffsetConcat(a, b, k);
    assert r == a + b;
    Single(x, k);
    if k == x.offset {
      NoneAtOffset(b, k);
    }
  }

  lemma {:induction false} NoneAtOffset(s: seq<Section>, k: nat)
    requires forall i :: 0 <= i < |s| ==> s[i].offset != k
    ensures AtOffset(s, k) == []
  {
    if s != [] {
      NoneAtOffset(s[..|s| - 1], k);
    }
  }

  lemma Single(x: Section, k: nat)
    ensures AtOffset([x], k) == if x.offset == k then [x] else []
  {
    assert [x][..0] == [];
  }

  function NonEmpty(s: seq<Section>): seq<Section> {
    if s == [] then []
    else if s[|s| - 1].size > 0 then NonEmpty(s[..|s| - 1]) + [s[|s| - 1]]
    else NonEmpty(s[..|s| - 1])
  }

  lemma {:induction false} NonEmptyConcat(s: seq<Section>, t: seq<Section>)
    ensures NonEmpty(s + t) == NonEmpty(s) + NonEmpty(t)
    decreases |t|
  {
    if t == [] {
      assert s + t == s;
    } else {
      var n := |t| - 1;
      NonEmptyConcat(s, t[..n]);
      assert (s + t)[..|s + t| - 1] == s + t[..n];
      assert NonEmpty(s) + (NonEmpty(t[..n]) + [t[n]]) == (NonEmpty(s) + NonEmpty(t[..n])) + [t[n]];
    }
  }

  lemma {:induction false} NonEmptyAtOffset(s: seq<Section>, k: nat)
    ensures AtOffset(NonEmpty(s), k) == NonEmpty(AtOffset(s, k))
  {
    if s != [] {
      var n := |s| - 1;
      NonEmptyAtOffset(s[..n], k);
      AtOffsetConcat(NonEmpty(s[..n]), [s[n]], k);
      NonEmptyConcat(AtOffset(s[..n], k), [s[n]]);
      Single(s[n], k);
      assert [s[n]][..0] == [];
    }
  }

  lemma {:induction false} NonEmptyMember(s: seq<Section>)
    ensures forall x :: x in NonEmpty(s) ==> x in s && x.size > 0
    ensures Ascending(s) ==> Ascending(NonEmpty(s))
  {
    if s != [] {
      NonEmptyMember(s[..|s| - 1]);
    }
  }

  /** Sorting and then skipping the empty sections is dropping them and then sorting. */
  lemma SortThenSkip(s: seq<Section>, r: seq<Section>)
    requires StableSortOf(s, r)
    ensures StableSortOf(NonEmpty(s), NonEmpty(r))
  {
    NonEmptyMember(r);
    forall k: nat
      ensures AtOffset(NonEmpty(s), k) == AtOffset(NonEmpty(r), k)
    {
      NonEmptyAtOffset(s, k);
      NonEmptyAtOffset(r, k);
    }
  }

  /** A stable sort, by insertion from the right: what a library's sorted() by offset returns. */
  function Sorted(s: seq<Section>): (r: seq<Section>)
    ensures StableSortOf(s, r)
  {
    if s == [] then []
    else
      var n := |s| - 1;
      var r := Sorted(s[..n]);
      var j := Place(r, s[n].offset);
      InsertStable(s[..n], r, s[n], j);
      assert s == s[..n] + [s[n]];
      r[..j] + [s[n]] + r[j..]
  }

  /** How many of `r` are not above `offset`. */
  function Place(r: seq<Section>, offset: nat): (j: nat)
    requires Ascending(r)
    ensures j <= |r| && (j > 0 ==> r[j - 1].offset <= offset) && (j < |r| ==> offset < r[j].offset)
  {
    if r == [] then 0
    else if r[|r| - 1].offset <= offset then |r|
    else Place(r[..|r| - 1], offset)
  }
}

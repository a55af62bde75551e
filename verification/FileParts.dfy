/** Files as lists of parts: where each part begins, and what is read there. */
module FileParts {
  import opened Bytes

  function Join(parts: seq<seq<Byte>>): seq<Byte> {
    if parts == [] then [] else Join(parts[..|parts| - 1]) + parts[|parts| - 1]
  }

  /** Where part i begins. */
  function Off(parts: seq<seq<Byte>>, i: nat): nat
    requires i <= |parts|
  {
    |Join(parts[..i])|
  }

  lemma OffNext(parts: seq<seq<Byte>>, i: nat)
    requires i < |parts|
    ensures Off(parts, i + 1) == Off(parts, i) + |parts[i]|
  {
    assert parts[..i + 1][..i] == parts[..i];
  }

  lemma {:induction false} JoinConcat(a: seq<seq<Byte>>, b: seq<seq<Byte>>)
    ensures Join(a + b) == Join(a) + Join(b)
    decreases |b|
  {
    if b == [] {
      assert a + b == a;
    } else {
      var n := |b| - 1;
      JoinConcat(a, b[..n]);
      assert (a + b)[..|a + b| - 1] == a + b[..n];
    }
  }

  /** The bytes between two parts are the parts between them. */
  lemma PartsAt(parts: seq<seq<Byte>>, i: nat, j: nat)
    requires i <= j <= |parts|
    ensures Off(parts, i) <= Off(parts, j) <= |Join(parts)|
    ensures Join(parts)[Off(parts, i)..Off(parts, j)] == Join(parts[i..j])
  {
    var a, b, c := parts[..i], parts[i..j], parts[j..];
    assert parts[..j] == a + b && parts == (a + b) + c;
    JoinConcat(a, b);
    JoinConcat(a + b, c);
  }

  lemma PartAt(parts: seq<seq<Byte>>, i: nat)
    requires i < |parts|
    ensures Off(parts, i) + |parts[i]| <= |Join(parts)|
    ensures Join(parts)[Off(parts, i)..Off(parts, i) + |parts[i]|] == parts[i]
  {
    PartsAt(parts, i, i + 1);
    OffNext(parts, i);
    assert parts[i..i + 1][..0] == [];
  }

  lemma OffNone(parts: seq<seq<Byte>>)
    ensures Off(parts, 0) == 0 && Off(parts, |parts|) == |Join(parts)|
  {
    assert parts[..0] == [] && parts[..|parts|] == parts;
  }

  lemma FieldAt(parts: seq<seq<Byte>>, i: nat, o: nat)
    requires i < |parts| && Off(parts, i) == o
    ensures o + |parts[i]| <= |Join(parts)| && Join(parts)[o..o + |parts[i]|] == parts[i]
  {
    PartAt(parts, i);
  }

  lemma SliceIn(f: seq<Byte>, at: nat, all: seq<Byte>, i: nat, j: nat)
    requires at + |all| <= |f| && f[at..at + |all|] == all && i <= j <= |all|
    ensures f[at + i..at + j] == all[i..j]
  {
    var part := f[at..at + |all|];
    forall k | 0 <= k < j - i
      ensures f[at + i..at + j][k] == all[i..j][k]
    {
      assert part[i + k] == all[i + k];
    }
  }

  lemma JoinOne(x: seq<Byte>)
    ensures Join([x]) == x
  {
    assert [x][..0] == [];
  }
}

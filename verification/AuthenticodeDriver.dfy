/** The digest walk of the driver: bounds checks, in-place sort, and the bytes handed to the hash. */
module AuthenticodeDriver {
  import opened Options
  import opened Bytes
  import opened StableSort
  import opened Authenticode

  datatype Rc = Ok | BadFormat | HashFailed

  /** What the caller's Update routine answers to call number k. */
  type Update = nat -> bool

  function Flat(fed: seq<seq<Byte>>): seq<Byte> {
    if fed == [] then [] else Flat(fed[..|fed| - 1]) + fed[|fed| - 1]
  }

  /** Calls made so far: each accepted, each with at least one byte and at most 1 MiB. */
  ghost predicate Accepted(fed: seq<seq<Byte>>, update: Update) {
    forall i :: 0 <= i < |fed| ==> 0 < |fed[i]| <= PIECE && update(i)
  }

  /** How a step ended: all its bytes were fed, or Update refused the call after the accepted ones. */
  ghost predicate FedOrRefused(rc: Rc, fed: seq<seq<Byte>>, fed': seq<seq<Byte>>, bytes: seq<Byte>, update: Update) {
    && Accepted(fed', update)
    && (rc.Ok? || (rc.HashFailed? && !update(|fed'|)))
    && (rc.Ok? ==> Flat(fed') == Flat(fed) + bytes)
  }

  lemma FlatNext(fed: seq<seq<Byte>>, piece: seq<Byte>)
    ensures Flat(fed + [piece]) == Flat(fed) + piece
  {
    assert (fed + [piece])[..|fed|] == fed;
  }

  method HashRange(f: seq<Byte>, off: nat, len: nat, update: Update, fed: seq<seq<Byte>>)
    returns (rc: Rc, fed': seq<seq<Byte>>)
    requires off + len <= |f| && Accepted(fed, update)
    ensures FedOrRefused(rc, fed, fed', f[off..off + len], update)
  {
    hide Flat;
    var o: nat, l: nat := off, len;
    fed' := fed;
    while l > 0
      invariant off <= o && o + l == off + len && Accepted(fed', update)
      invariant Flat(fed') == Flat(fed) + f[off..o]
    {
      var n := if l > PIECE then PIECE else l;
      if !update(|fed'|) {
        return HashFailed, fed';
      }
      FlatNext(fed', f[o..o + n]);
      fed' := fed' + [f[o..o + n]];
      assert f[off..o] + f[o..o + n] == f[off..o + n];
      o := o + n;
      l := l - n;
    }
    assert o == off + len;
    return Ok, fed';
  }

  /** The header checks of the driver accept exactly what the tool's do, with the same layout. */
  method ParseHeaders(f: seq<Byte>) returns (ok: bool, lay: Layout)
    ensures ok == ParseLayout(f).Some?
    ensures ok ==> lay == ParseLayout(f).value
  {
    var length := |f|;
    lay := Layout(0, 0, 0, 0, None, 0, 0);
    if length < 0x40 || f[0] != 0x4d || f[1] != 0x5a {
      return false, lay;
    }
    assert f[..2] == [f[0], f[1]];
    var lfanew := Rd32(f, 0x3c);
    if lfanew < 0x40 || lfanew > length || length - lfanew < 24 {
      return false, lay;
    }
    assert f[lfanew..lfanew + 4] == [f[lfanew], f[lfanew + 1], f[lfanew + 2], f[lfanew + 3]];
    if f[lfanew] != 0x50 || f[lfanew + 1] != 0x45 || f[lfanew + 2] != 0 || f[lfanew + 3] != 0 {
      return false, lay;
    }
    var nSections, optSize, opt := Rd16(f, lfanew + 6), Rd16(f, lfanew + 20), lfanew + 24;
    if nSections > MAX_SECTIONS || opt > length || optSize > length - opt || optSize < 96 {
      return false, lay;
    }
    ok, lay := ParseOptional(f, opt, optSize, nSections);
  }

  method ParseOptional(f: seq<Byte>, opt: nat, optSize: nat, nSections: nat) returns (ok: bool, lay: Layout)
    requires Headers(f) == Some((opt, optSize, nSections))
    ensures ok == ParseLayout(f).Some?
    ensures ok ==> lay == ParseLayout(f).value
  {
    var length, magic := |f|, Rd16(f, opt);
    var nDirs, ddOff := 0, 0;
    lay := Layout(0, 0, 0, 0, None, 0, 0);
    if magic == 0x10b {
      ddOff := opt + 96;
      nDirs := Rd32(f, opt + 92);
    } else if magic == 0x20b {
      if optSize < 112 {
        return false, lay;
      }
      ddOff := opt + 112;
      nDirs := Rd32(f, opt + 108);
    } else {
      return false, lay;
    }
    var checkOff, sizeOfHeaders := opt + 64, Rd32(f, opt + 60);
    if checkOff + 4 > opt + optSize || sizeOfHeaders > length {
      return false, lay;
    }
    var certEntry, certOff, certSize, haveCertEntry := 0, 0, 0, false;
    if nDirs > 4 && ddOff + 5 * 8 <= opt + optSize {
      certEntry := ddOff + 4 * 8;
      certOff, certSize := Rd32(f, certEntry), Rd32(f, certEntry + 4);
      haveCertEntry := true;
    }
    if checkOff + 4 > sizeOfHeaders {
      return false, lay;
    }
    if haveCertEntry && (certEntry < checkOff + 4 || certEntry + 8 > sizeOfHeaders) {
      return false, lay;
    }
    var secTab := opt + optSize;
    if secTab > length || nSections * 40 > length - secTab {
      return false, lay;
    }
    lay := Layout(checkOff, sizeOfHeaders, nSections, secTab, if haveCertEntry then Some(certEntry) else None, certOff, certSize);
    return true, lay;
  }

  /** Reads the section table into `sec`, keeping it sorted by file offset as it grows. */
  method ReadSections(f: seq<Byte>, lay: Layout, sec: array<Section>)
    requires lay.sectab + 40 * lay.nsec <= |f| && lay.nsec <= sec.Length
    modifies sec
    ensures StableSortOf(Sections(f, lay, lay.nsec), sec[..lay.nsec])
  {
    var i := 0;
    assert sec[..0] == [];
    while i < lay.nsec
      invariant i <= lay.nsec && StableSortOf(Sections(f, lay, i), sec[..i])
    {
      var cur := SectionAt(f, lay, i);
      InsertInto(sec, i, cur, Sections(f, lay, i));
      i := i + 1;
    }
  }

  /** One round of the stable insertion sort. */
  method InsertInto(sec: array<Section>, i: nat, cur: Section, ghost s: seq<Section>)
    requires i < sec.Length && StableSortOf(s, sec[..i])
    modifies sec
    ensures StableSortOf(s + [cur], sec[..i + 1])
  {
    hide StableSortOf;
    ghost var r := sec[..i];
    var j := i;
    while j > 0 && sec[j - 1].offset > cur.offset
      invariant 0 <= j <= i && sec[..j] == r[..j] && sec[j + 1..i + 1] == r[j..]
      invariant j < i ==> cur.offset < r[j].offset
    {
      assert sec[j - 1] == r[j - 1];
      ghost var above := sec[j + 1..i + 1];
      sec[j] := sec[j - 1];
      assert sec[j..i + 1] == [r[j - 1]] + above;
      j := j - 1;
    }
    assert j > 0 ==> sec[..j][j - 1] == r[j - 1];
    InsertStable(s, r, cur, j);
    ghost var below, above := sec[..j], sec[j + 1..i + 1];
    sec[j] := cur;
    assert sec[..i + 1] == below + [cur] + above;
  }

  /** Hashes the headers around the checksum and the certificate entry. */
  method HashHeaders(f: seq<Byte>, lay: Layout, update: Update) returns (rc: Rc, fed: seq<seq<Byte>>)
    requires Consistent(lay, |f|)
    ensures FedOrRefused(rc, [], fed, Content(f, HeaderSpans(lay)), update)
  {
    hide Content, HeaderSpans;
    HeaderContent(f, lay);
    rc, fed := HashRange(f, 0, lay.checksum, update, []);
    if !rc.Ok? {
      return;
    }
    if lay.certEntry.Some? {
      var e := lay.certEntry.value;
      rc, fed := HashRange(f, lay.checksum + 4, e - (lay.checksum + 4), update, fed);
      if rc.Ok? {
        rc, fed := HashRange(f, e + 8, lay.headers - (e + 8), update, fed);
      }
    } else {
      rc, fed := HashRange(f, lay.checksum + 4, lay.headers - (lay.checksum + 4), update, fed);
    }
  }

  lemma HeaderContent(f: seq<Byte>, lay: Layout)
    requires Consistent(lay, |f|)
    ensures Content(f, HeaderSpans(lay)) ==
            match lay.certEntry
            case None => f[0..lay.checksum] + f[lay.checksum + 4..lay.headers]
            case Some(e) => f[0..lay.checksum] + f[lay.checksum + 4..e] + f[e + 8..lay.headers]
  {
    match lay.certEntry
    case None => ContentTwo(f, Span(0, lay.checksum), Span(lay.checksum + 4, lay.headers));
    case Some(e) =>
      ContentTwo(f, Span(0, lay.checksum), Span(lay.checksum + 4, e));
      ContentNext(f, [Span(0, lay.checksum), Span(lay.checksum + 4, e)], Span(e + 8, lay.headers));
      assert HeaderSpans(lay) == [Span(0, lay.checksum), Span(lay.checksum + 4, e)] + [Span(e + 8, lay.headers)];
  }

  lemma ContentTwo(f: seq<Byte>, a: Span, b: Span)
    requires Inside(f, a) && Inside(f, b)
    ensures Content(f, [a, b]) == f[a.start..a.end] + f[b.start..b.end]
  {
    ContentOne(f, a);
    ContentNext(f, [a], b);
    assert [a, b] == [a] + [b];
  }

  lemma ContentNext(f: seq<Byte>, spans: seq<Span>, s: Span)
    requires Inside(f, s)
    ensures Content(f, spans + [s]) == Content(f, spans) + f[s.start..s.end]
  {
    ContentConcat(f, spans, [s]);
    ContentOne(f, s);
  }

  /** Hashes the sorted sections, skipping empty ones; refuses one that leaves the file or overruns its length. */
  method HashSections(f: seq<Byte>, headers: nat, sec: array<Section>, n: nat, update: Update, fed: seq<seq<Byte>>)
    returns (rc: Rc, fed': seq<seq<Byte>>, sum: nat)
    requires n <= sec.Length && Accepted(fed, update)
    ensures Accepted(fed', update)
    ensures rc.BadFormat? ==> !Fits(|f|, headers, NonEmpty(sec[..n]))
    ensures !rc.BadFormat? ==> FedOrRefused(rc, fed, fed', Content(f, SectionSpans(NonEmpty(sec[..n]))), update)
    ensures rc.Ok? ==> sum == Hashed(headers, NonEmpty(sec[..n])) && Fits(|f|, headers, NonEmpty(sec[..n]))
  {
    hide Fits, Hashed, SectionSpans, Content, NonEmpty, Flat, Accepted;
    sum, fed' := headers, fed;
    var i := 0;
    assert sec[..0] == [];
    NoSections(f, headers);
    while i < n
      invariant i <= n && Accepted(fed', update)
      invariant sum == Hashed(headers, NonEmpty(sec[..i])) && Fits(|f|, headers, NonEmpty(sec[..i]))
      invariant Flat(fed') == Flat(fed) + Content(f, SectionSpans(NonEmpty(sec[..i])))
    {
      assert sec[..i + 1] == sec[..i] + [sec[i]];
      NextSection(f, headers, sec[..i], sec[i]);
      if sec[i].size > 0 {
        if sec[i].offset + sec[i].size > |f| || sum + sec[i].size > |f| {
          assert sec[..n][..i + 1] == sec[..i + 1];
          FitsPrefix(|f|, headers, sec[..n], i + 1);
          return BadFormat, fed', sum;
        }
        rc, fed' := HashRange(f, sec[i].offset, sec[i].size, update, fed');
        if !rc.Ok? {
          return;
        }
        sum := sum + sec[i].size;
      }
      i := i + 1;
    }
    assert sec[..i] == sec[..n];
    rc := Ok;
  }

  lemma NoSections(f: seq<Byte>, headers: nat)
    ensures NonEmpty([]) == [] && Hashed(headers, []) == headers && Fits(|f|, headers, []) && Content(f, SectionSpans([])) == []
  {
  }

  /** What one more section in sorted order adds. */
  lemma NextSection(f: seq<Byte>, headers: nat, s: seq<Section>, x: Section)
    ensures x.size == 0 ==> NonEmpty(s + [x]) == NonEmpty(s)
    ensures var a, b := NonEmpty(s), NonEmpty(s + [x]);
            x.size > 0 ==>
              && Hashed(headers, b) == Hashed(headers, a) + x.size
              && (Fits(|f|, headers, b) <==>
                  Fits(|f|, headers, a) && x.offset + x.size <= |f| && Hashed(headers, a) + x.size <= |f|)
              && (x.offset + x.size <= |f| ==>
                  Content(f, SectionSpans(b)) == Content(f, SectionSpans(a)) + f[x.offset..x.offset + x.size])
  {
    hide Content, NonEmpty, Hashed, Fits, SectionSpans;
    var a := NonEmpty(s);
    NonEmptyNext(s, x);
    OneMore(|f|, headers, a, x);
    if x.offset + x.size <= |f| {
      ContentNext(f, SectionSpans(a), Span(x.offset, x.offset + x.size));
    }
  }

  lemma NonEmptyNext(s: seq<Section>, x: Section)
    ensures NonEmpty(s + [x]) == if x.size > 0 then NonEmpty(s) + [x] else NonEmpty(s)
  {
    assert (s + [x])[..|s|] == s;
  }

  lemma OneMore(n: nat, headers: nat, a: seq<Section>, x: Section)
    ensures Hashed(headers, a + [x]) == Hashed(headers, a) + x.size
    ensures Fits(n, headers, a + [x]) <==>
            Fits(n, headers, a) && x.offset + x.size <= n && Hashed(headers, a) + x.size <= n
    ensures SectionSpans(a + [x]) == SectionSpans(a) + [Span(x.offset, x.offset + x.size)]
  {
    assert (a + [x])[..|a|] == a;
  }

  lemma {:induction false} FitsPrefix(n: nat, headers: nat, s: seq<Section>, k: nat)
    requires k <= |s| && !Fits(n, headers, NonEmpty(s[..k]))
    ensures !Fits(n, headers, NonEmpty(s))
    decreases |s| - k
  {
    if k < |s| {
      assert s[..k + 1][..k] == s[..k];
      var a := NonEmpty(s[..k]);
      if s[k].size > 0 {
        assert (a + [s[k]])[..|a|] == a;
      }
      FitsPrefix(n, headers, s, k + 1);
    } else {
      assert s[..k] == s;
    }
  }

  /**
   The driver's walk.  Whatever Update answers, a success has fed exactly the coverage of the file and a format
   error means that it has none; with an Update that never fails those are the only outcomes.
   */
  method PeaAuthenticodeHash(f: seq<Byte>, update: Update) returns (rc: Rc, fed: seq<seq<Byte>>)
    ensures Accepted(fed, update)
    ensures rc.Ok? ==> Coverage(f).Some? && Flat(fed) == Content(f, Coverage(f).value)
    ensures rc.BadFormat? ==> Coverage(f).None?
    ensures rc.HashFailed? ==> !update(|fed|)
  {
    hide StableSortOf, Content, ParseLayout, Coverage, Sorted, Sections, NonEmpty, HeaderSpans, SectionSpans, Fits, Hashed;
    var ok, lay := ParseHeaders(f);
    if !ok {
      NoCoverage(f);
      return BadFormat, [];
    }
    var sec := new Section[MAX_SECTIONS](_ => Section(0, 0));
    ReadSections(f, lay, sec);
    ghost var sorted := NonEmpty(sec[..lay.nsec]);
    SameOrder(Sections(f, lay, lay.nsec), sec[..lay.nsec]);
    CoverageIs(f, lay, sorted);
    rc, fed := HashHeaders(f, lay, update);
    if !rc.Ok? {
      return;
    }
    var sum;
    rc, fed, sum := HashSections(f, lay.headers, sec, lay.nsec, update, fed);
    if !rc.Ok? {
      return;
    }
    if |f| > sum {
      var extra := |f| - sum;
      if lay.certSize > 0 {
        if lay.certOff + lay.certSize > |f| || lay.certSize > extra {
          return BadFormat, fed;
        }
        extra := extra - lay.certSize;
      }
      rc, fed := HashRange(f, sum, extra, update, fed);
    }
  }

  /** Sort-then-skip ends in the same order as skip-then-sort. */
  lemma SameOrder(s: seq<Section>, r: seq<Section>)
    requires StableSortOf(s, r)
    ensures NonEmpty(r) == Sorted(NonEmpty(s))
  {
    hide StableSortOf;
    SortThenSkip(s, r);
    StableUnique(NonEmpty(s), NonEmpty(r), Sorted(NonEmpty(s)));
  }

  lemma NoCoverage(f: seq<Byte>)
    requires ParseLayout(f).None?
    ensures Coverage(f).None?
  {
  }

  /** The coverage in terms of the sorted sections. */
  lemma CoverageIs(f: seq<Byte>, lay: Layout, secs: seq<Section>)
    requires ParseLayout(f) == Some(lay) && secs == Sorted(NonEmpty(Sections(f, lay, lay.nsec)))
    ensures var hashed := Hashed(lay.headers, secs);
            && (Coverage(f).Some? <==> Fits(|f|, lay.headers, secs) && TailFits(|f|, hashed, lay))
            && (Coverage(f).Some? ==>
                Content(f, Coverage(f).value) ==
                Content(f, HeaderSpans(lay)) + Content(f, SectionSpans(secs)) +
                if |f| > hashed then f[hashed..|f| - lay.certSize] else [])
  {
    hide ParseLayout, Sorted, Sections, NonEmpty, HeaderSpans, SectionSpans, Fits, Hashed, Content;
    var hashed := Hashed(lay.headers, secs);
    if Coverage(f).Some? {
      FitsWithin(|f|, lay.headers, secs);
      ThreeParts(f, HeaderSpans(lay), SectionSpans(secs), TailSpan(|f|, hashed, lay));
    }
  }

  lemma FitsWithin(n: nat, headers: nat, s: seq<Section>)
    requires Fits(n, headers, s) && headers <= n
    ensures Hashed(headers, s) <= n
  {
  }

  lemma ThreeParts(f: seq<Byte>, a: seq<Span>, b: seq<Span>, tail: Span)
    requires Inside(f, tail)
    ensures Content(f, a + b + [tail]) == Content(f, a) + Content(f, b) + f[tail.start..tail.end]
  {
    ContentConcat(f, a, b);
    ContentNext(f, a + b, tail);
  }
}

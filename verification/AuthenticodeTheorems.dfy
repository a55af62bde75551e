/** What the two walks promise together. */
module AuthenticodeTheorems {
  import opened Options
  import opened Bytes
  import opened StableSort
  import opened Authenticode
  import Driver = AuthenticodeDriver
  import Tool = AuthenticodeTool

  /** For every byte string, the walks either both reject or feed the hash the same bytes. */
  method Twins(f: seq<Byte>, update: Driver.Update) returns (rc: Driver.Rc, fed: seq<seq<Byte>>, pieces: Option<seq<Span>>)
    requires forall k: nat :: update(k)
    ensures rc.BadFormat? <==> pieces.None?
    ensures rc.Ok? <==> pieces.Some?
    ensures rc.Ok? ==> Driver.Flat(fed) == Content(f, pieces.value)
  {
    rc, fed := Driver.PeaAuthenticodeHash(f, update);
    pieces := Tool.AuthenticodePieces(f);
  }

  /** The sections in the order they are hashed. */
  function Hashable(f: seq<Byte>): seq<Section>
    requires ParseLayout(f).Some?
  {
    Sorted(NonEmpty(Sections(f, ParseLayout(f).value, ParseLayout(f).value.nsec)))
  }

  lemma {:induction false} SectionBytes(f: seq<Byte>, headers: nat, s: seq<Section>)
    requires Fits(|f|, headers, s) && headers <= |f|
    ensures headers <= Hashed(headers, s) <= |f|
    ensures |Content(f, SectionSpans(s))| == Hashed(headers, s) - headers
  {
    if s != [] {
      var k := |s| - 1;
      SectionBytes(f, headers, s[..k]);
      Driver.ContentNext(f, SectionSpans(s[..k]), Span(s[k].offset, s[k].offset + s[k].size));
    }
  }

  /** Exactly the checksum, the certificate entry and the blob are left out, counted in bytes. */
  lemma Conservation(f: seq<Byte>)
    requires Coverage(f).Some?
    ensures var lay := ParseLayout(f).value;
            |Content(f, Coverage(f).value)| ==
            |f| - 4 - (if lay.certEntry.Some? then 8 else 0) -
            (if |f| > Hashed(lay.headers, Hashable(f)) then lay.certSize else 0)
  {
    hide Content, Sorted, NonEmpty, Sections, ParseLayout;
    var lay := ParseLayout(f).value;
    Driver.CoverageIs(f, lay, Hashable(f));
    Driver.HeaderContent(f, lay);
    SectionBytes(f, lay.headers, Hashable(f));
  }

  /** The bytes of the headers the digest does not look at. */
  predicate Skipped(lay: Layout, p: nat) {
    || lay.checksum <= p < lay.checksum + 4
    || (lay.certEntry.Some? && lay.certEntry.value <= p < lay.certEntry.value + 8)
  }

  /** `f` is a program of `base` bytes followed by its certificate blob, with its section data in between. */
  ghost predicate BlobLast(f: seq<Byte>, base: nat) {
    && Coverage(f).Some?
    && var lay := ParseLayout(f).value;
       && |f| == base + lay.certSize
       && lay.headers <= base && lay.sectab + 40 * lay.nsec <= base
       && Hashed(lay.headers, Hashable(f)) <= base
       && forall x :: x in Hashable(f) ==> lay.headers <= x.offset && x.offset + x.size <= base
  }

  /** Two files that differ at most in the checksum, the certificate entry and the blob. */
  ghost predicate Resigned(f: seq<Byte>, g: seq<Byte>, base: nat)
    requires ParseLayout(f).Some?
  {
    && base <= |f| && base <= |g|
    && forall p: nat :: p < base && !Skipped(ParseLayout(f).value, p) ==> f[p] == g[p]
  }

  /** The layout is read from bytes the digest covers, so re-signing changes nothing of it but the certificate fields. */
  lemma SameLayout(f: seq<Byte>, g: seq<Byte>, base: nat)
    requires ParseLayout(f).Some? && ParseLayout(g).Some? && Resigned(f, g, base)
    requires ParseLayout(f).value.headers <= base && ParseLayout(f).value.sectab + 40 * ParseLayout(f).value.nsec <= base
    ensures var a, b := ParseLayout(f).value, ParseLayout(g).value;
            b == a.(certOff := b.certOff, certSize := b.certSize)
  {
    var a, b := ParseLayout(f).value, ParseLayout(g).value;
    SameHeaders(f, g, base);
    var (opt, optSize, nsec) := Headers(f).value;
    Rd32Same(f, g, opt);
    Rd32Same(f, g, opt + 60);
    assert Directory(f, opt, optSize) == Directory(g, opt, optSize);
    var (dd, ndirsAt) := Directory(f, opt, optSize).value;
    assert forall p :: ndirsAt <= p < ndirsAt + 4 ==> !Skipped(a, p);
    Rd32Same(f, g, ndirsAt);
  }

  lemma SameHeaders(f: seq<Byte>, g: seq<Byte>, base: nat)
    requires ParseLayout(f).Some? && ParseLayout(g).Some? && Resigned(f, g, base)
    requires ParseLayout(f).value.headers <= base
    ensures Headers(f).Some? && Headers(f) == Headers(g)
  {
    var lay := ParseLayout(f).value;
    var opt := Headers(f).value.0;
    assert Headers(g).Some? && lay.checksum == opt + 64 && opt + 68 <= base;
    assert forall p: nat :: p < opt + 64 ==> !Skipped(lay, p);
    hide ParseLayout;
    HeadersRead(f, g, opt);
  }

  /** The headers are read from the bytes before the checksum. */
  lemma HeadersRead(f: seq<Byte>, g: seq<Byte>, opt: nat)
    requires Headers(f).Some? && Headers(g).Some? && opt == Headers(f).value.0
    requires opt + 64 <= |f| && opt + 64 <= |g| && forall p: nat :: p < opt + 64 ==> f[p] == g[p]
    ensures Headers(f) == Headers(g)
  {
    Rd32Same(f, g, 0x3c);
    Rd32Same(f, g, opt - 24 + 6);
    Rd32Same(f, g, opt - 24 + 20);
  }

  lemma SameSections(f: seq<Byte>, g: seq<Byte>, base: nat, n: nat)
    requires ParseLayout(f).Some? && ParseLayout(g).Some? && Resigned(f, g, base)
    requires ParseLayout(f).value.headers <= base && ParseLayout(f).value.sectab + 40 * ParseLayout(f).value.nsec <= base
    requires n <= ParseLayout(f).value.nsec && n <= ParseLayout(g).value.nsec
    ensures Sections(f, ParseLayout(f).value, n) == Sections(g, ParseLayout(g).value, n)
  {
    var a, b := ParseLayout(f).value, ParseLayout(g).value;
    SameLayout(f, g, base);
    forall i | 0 <= i < n
      ensures SectionAt(f, a, i) == SectionAt(g, b, i)
    {
      AfterEntry(f);
      Rd32Same(f, g, a.sectab + 40 * i + 16);
      Rd32Same(f, g, a.sectab + 40 * i + 20);
    }
  }

  /** The section table begins after everything that is skipped. */
  lemma AfterEntry(f: seq<Byte>)
    requires ParseLayout(f).Some?
    ensures var a := ParseLayout(f).value; forall p: nat :: a.sectab <= p ==> !Skipped(a, p)
  {
  }

  lemma {:induction false} SameSectionBytes(f: seq<Byte>, g: seq<Byte>, s: seq<Section>, lo: nat, base: nat)
    requires base <= |f| && base <= |g| && forall p :: lo <= p < base ==> f[p] == g[p]
    requires forall x :: x in s ==> lo <= x.offset && x.offset + x.size <= base
    ensures Content(f, SectionSpans(s)) == Content(g, SectionSpans(s))
  {
    if s != [] {
      var k := |s| - 1;
      var x := Span(s[k].offset, s[k].offset + s[k].size);
      SameSectionBytes(f, g, s[..k], lo, base);
      assert s[k] in s;
      Driver.ContentNext(f, SectionSpans(s[..k]), x);
      Driver.ContentNext(g, SectionSpans(s[..k]), x);
      assert f[x.start..x.end] == g[x.start..x.end];
    }
  }

  lemma SameHeaderBytes(f: seq<Byte>, g: seq<Byte>, a: Layout, b: Layout)
    requires Consistent(a, |f|) && Consistent(b, |g|) && b == a.(certOff := b.certOff, certSize := b.certSize)
    requires forall p: nat :: p < a.headers && !Skipped(a, p) ==> f[p] == g[p]
    ensures Content(f, HeaderSpans(a)) == Content(g, HeaderSpans(b))
  {
    hide Content, HeaderSpans;
    Driver.HeaderContent(f, a);
    Driver.HeaderContent(g, b);
    assert f[0..a.checksum] == g[0..a.checksum];
    match a.certEntry
    case None => assert f[a.checksum + 4..a.headers] == g[a.checksum + 4..a.headers];
    case Some(e) =>
      assert f[a.checksum + 4..e] == g[a.checksum + 4..e];
      assert f[e + 8..a.headers] == g[e + 8..a.headers];
  }

  lemma BlobLastIs(f: seq<Byte>, base: nat, lay: Layout, s: seq<Section>)
    requires BlobLast(f, base) && ParseLayout(f) == Some(lay) && s == Hashable(f)
    ensures Coverage(f).Some? && |f| == base + lay.certSize && lay.headers <= base && Hashed(lay.headers, s) <= base
    ensures s == Sorted(NonEmpty(Sections(f, lay, lay.nsec)))
  {
    hide Sorted, NonEmpty, Sections, ParseLayout, Coverage, Hashed;
  }

  /** With the blob last, what is hashed ends where the blob begins. */
  lemma BlobLastContent(f: seq<Byte>, base: nat, lay: Layout, s: seq<Section>)
    requires BlobLast(f, base) && ParseLayout(f) == Some(lay) && s == Hashable(f)
    ensures lay.headers <= Hashed(lay.headers, s) <= base <= |f|
    ensures Coverage(f).Some?
    ensures Content(f, Coverage(f).value) ==
            Content(f, HeaderSpans(lay)) + Content(f, SectionSpans(s)) + f[Hashed(lay.headers, s)..base]
  {
    BlobLastIs(f, base, lay, s);
    hide BlobLast, Hashable, Content, Sorted, NonEmpty, Sections, ParseLayout, HeaderSpans, SectionSpans, Coverage, Hashed;
    ContentToBlob(f, base, lay, s);
  }

  lemma ContentToBlob(f: seq<Byte>, base: nat, lay: Layout, s: seq<Section>)
    requires ParseLayout(f) == Some(lay) && s == Sorted(NonEmpty(Sections(f, lay, lay.nsec)))
    requires Coverage(f).Some? && |f| == base + lay.certSize && lay.headers <= base && Hashed(lay.headers, s) <= base
    ensures lay.headers <= Hashed(lay.headers, s)
    ensures Content(f, Coverage(f).value) ==
            Content(f, HeaderSpans(lay)) + Content(f, SectionSpans(s)) + f[Hashed(lay.headers, s)..base]
  {
    hide Content, Sorted, NonEmpty, Sections, ParseLayout, HeaderSpans, SectionSpans, Coverage, Fits, Hashed;
    Driver.CoverageIs(f, lay, s);
    SectionBytes(f, lay.headers, s);
    TailIs(f, Hashed(lay.headers, s), base, lay.certSize);
  }

  lemma TailIs(f: seq<Byte>, hashed: nat, base: nat, certSize: nat)
    requires |f| == base + certSize && hashed <= base
    ensures f[hashed..base] == if |f| > hashed then f[hashed..|f| - certSize] else []
  {
  }

  /** Re-signing keeps the sections and their order. */
  lemma SameHashable(f: seq<Byte>, g: seq<Byte>, base: nat)
    requires BlobLast(f, base) && BlobLast(g, base) && Resigned(f, g, base)
    ensures Hashable(f) == Hashable(g)
  {
    SameLayout(f, g, base);
    SameSections(f, g, base, ParseLayout(f).value.nsec);
    hide Sorted, NonEmpty, Sections, ParseLayout, Coverage, Fits, Hashed;
  }

  /** Nothing behind the headers is skipped. */
  lemma SameBehindHeaders(f: seq<Byte>, g: seq<Byte>, base: nat)
    requires ParseLayout(f).Some? && Resigned(f, g, base)
    ensures forall p :: ParseLayout(f).value.headers <= p < base ==> f[p] == g[p]
  {
    hide ParseLayout;
  }

  /** Signing or re-signing a file does not change what is hashed. */
  lemma SigningInvariant(f: seq<Byte>, g: seq<Byte>, base: nat)
    requires BlobLast(f, base) && BlobLast(g, base) && Resigned(f, g, base)
    ensures Content(f, Coverage(f).value) == Content(g, Coverage(g).value)
  {
    var a, b, s := ParseLayout(f).value, ParseLayout(g).value, Hashable(f);
    SameLayout(f, g, base);
    SameHashable(f, g, base);
    SameBytes(f, g, base, a, b, s);
    hide BlobLast, Resigned, Content, ParseLayout, HeaderSpans, SectionSpans, Coverage, Hashable, Hashed;
    BlobLastContent(f, base, a, s);
    BlobLastContent(g, base, b, s);
  }

  /** Headers, sections and tail are the same bytes. */
  lemma SameBytes(f: seq<Byte>, g: seq<Byte>, base: nat, a: Layout, b: Layout, s: seq<Section>)
    requires BlobLast(f, base) && BlobLast(g, base) && Resigned(f, g, base)
    requires ParseLayout(f) == Some(a) && ParseLayout(g) == Some(b) && b == a.(certOff := b.certOff, certSize := b.certSize)
    requires s == Hashable(f)
    ensures Content(f, HeaderSpans(a)) == Content(g, HeaderSpans(b))
    ensures Content(f, SectionSpans(s)) == Content(g, SectionSpans(s))
    ensures var hashed := Hashed(a.headers, s); hashed <= base <= |f| && base <= |g| && f[hashed..base] == g[hashed..base]
  {
    hide Content, ParseLayout, HeaderSpans, SectionSpans, Coverage, Hashed, Hashable;
    BlobLastContent(f, base, a, s);
    SameHeaderBytes(f, g, a, b);
    SameBehindHeaders(f, g, base);
    SameSectionBytes(f, g, s, a.headers, base);
    var hashed := Hashed(a.headers, s);
    assert f[hashed..base] == g[hashed..base];
  }
}

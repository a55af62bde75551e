/**
 The Authenticode message digest of a PE image: which bytes it covers ("Windows Authenticode Portable
 Executable Signature Format", section "Calculating the PE Image Hash").  The walk exists twice, once for the
 driver and once as a command-line tool; both are modelled here and related to the same coverage.
 */
module Authenticode {
  import opened Options
  import opened Bytes
  import opened StableSort

  const MAX_SECTIONS := 96
  const PIECE := 0x10_0000

  /** A half-open range of file offsets. */
  datatype Span = Span(start: nat, end: nat)

  datatype Layout = Layout(checksum: nat, headers: nat, nsec: nat, sectab: nat,
                           certEntry: Option<nat>, certOff: nat, certSize: nat)

  /** Where the optional header is, if the DOS and file headers are in order. */
  function Headers(f: seq<Byte>): (r: Option<(nat, nat, nat)>)
    ensures r.Some? ==> var (opt, optSize, nsec) := r.value; 96 <= optSize && opt + optSize <= |f| && nsec <= MAX_SECTIONS && opt >= 88
  {
    if |f| < 0x40 || f[..2] != [0x4d, 0x5a] then None
    else
      var lfanew := Rd32(f, 0x3c);
      if lfanew < 0x40 || lfanew + 24 > |f| || f[lfanew..lfanew + 4] != [0x50, 0x45, 0, 0] then None
      else
        var nsec, optSize, opt := Rd16(f, lfanew + 6), Rd16(f, lfanew + 20), lfanew + 24;
        if nsec > MAX_SECTIONS || opt + optSize > |f| || optSize < 96 then None
        else Some((opt, optSize, nsec))
  }

  /** The data directory and the offset of the number of its entries. */
  function Directory(f: seq<Byte>, opt: nat, optSize: nat): (r: Option<(nat, nat)>)
    requires 96 <= optSize && opt + optSize <= |f|
    ensures r.Some? ==> r.value.1 + 4 == r.value.0 <= opt + optSize && opt + 96 <= r.value.0
  {
    var magic := Rd16(f, opt);
    if magic == 0x10b then Some((opt + 96, opt + 92))
    else if magic == 0x20b && optSize >= 112 then Some((opt + 112, opt + 108))
    else None
  }

  predicate Consistent(lay: Layout, n: nat) {
    && lay.headers <= n && lay.checksum + 4 <= lay.headers
    && (lay.certEntry.Some? ==> lay.checksum + 4 <= lay.certEntry.value && lay.certEntry.value + 8 <= lay.headers)
    && lay.sectab + 40 * lay.nsec <= n
  }

  /** Where the pieces the digest skips or walks are (the tool's parse_layout). */
  function ParseLayout(f: seq<Byte>): (r: Option<Layout>)
    ensures r.Some? ==> Consistent(r.value, |f|) && r.value.nsec <= MAX_SECTIONS
    ensures r.Some? && r.value.certEntry.None? ==> r.value.certOff == 0 && r.value.certSize == 0
  {
    match Headers(f)
    case None => None
    case Some((opt, optSize, nsec)) =>
      match Directory(f, opt, optSize)
      case None => None
      case Some((dd, ndirsAt)) =>
        var hasEntry := Rd32(f, ndirsAt) > 4 && dd + 5 * 8 <= opt + optSize;
        var lay := Layout(opt + 64, Rd32(f, opt + 60), nsec, opt + optSize,
                          if hasEntry then Some(dd + 4 * 8) else None,
                          if hasEntry then Rd32(f, dd + 4 * 8) else 0,
                          if hasEntry then Rd32(f, dd + 4 * 8 + 4) else 0);
        if Consistent(lay, |f|) then Some(lay) else None
  }

  function SectionAt(f: seq<Byte>, lay: Layout, i: nat): Section
    requires lay.sectab + 40 * lay.nsec <= |f| && i < lay.nsec
  {
    Section(Rd32(f, lay.sectab + 40 * i + 20), Rd32(f, lay.sectab + 40 * i + 16))
  }

  function Sections(f: seq<Byte>, lay: Layout, n: nat): (s: seq<Section>)
    requires lay.sectab + 40 * lay.nsec <= |f| && n <= lay.nsec
    ensures |s| == n && forall i :: 0 <= i < n ==> s[i] == SectionAt(f, lay, i)
  {
    if n == 0 then [] else Sections(f, lay, n - 1) + [SectionAt(f, lay, n - 1)]
  }

  /** The headers without the checksum and the certificate-table entry. */
  function HeaderSpans(lay: Layout): seq<Span> {
    match lay.certEntry
    case None => [Span(0, lay.checksum), Span(lay.checksum + 4, lay.headers)]
    case Some(e) => [Span(0, lay.checksum), Span(lay.checksum + 4, e), Span(e + 8, lay.headers)]
  }

  /** Bytes accounted for after the sections of `s`. */
  function Hashed(headers: nat, s: seq<Section>): nat {
    if s == [] then headers else Hashed(headers, s[..|s| - 1]) + s[|s| - 1].size
  }

  /** Every section lies in the file, and together with the headers they do not exceed it. */
  predicate Fits(n: nat, headers: nat, s: seq<Section>) {
    s == [] ||
    var k := |s| - 1;
    Fits(n, headers, s[..k]) && s[k].offset + s[k].size <= n && Hashed(headers, s[..k]) + s[k].size <= n
  }

  function SectionSpans(s: seq<Section>): seq<Span> {
    if s == [] then []
    else SectionSpans(s[..|s| - 1]) + [Span(s[|s| - 1].offset, s[|s| - 1].offset + s[|s| - 1].size)]
  }

  predicate TailFits(n: nat, hashed: nat, lay: Layout) {
    n > hashed && lay.certSize > 0 ==> lay.certOff + lay.certSize <= n && lay.certSize <= n - hashed
  }

  /** What follows the sections, without the certificate blob. */
  function TailSpan(n: nat, hashed: nat, lay: Layout): (s: Span)
    requires TailFits(n, hashed, lay)
  {
    if n > hashed then Span(hashed, n - lay.certSize) else Span(hashed, hashed)
  }

  /** The coverage of the digest: the spans to hash, in order, or nothing for a file that cannot be signed. */
  function Coverage(f: seq<Byte>): Option<seq<Span>> {
    match ParseLayout(f)
    case None => None
    case Some(lay) =>
      var secs := Sorted(NonEmpty(Sections(f, lay, lay.nsec)));
      var hashed := Hashed(lay.headers, secs);
      if Fits(|f|, lay.headers, secs) && TailFits(|f|, hashed, lay) then
        Some(HeaderSpans(lay) + SectionSpans(secs) + [TailSpan(|f|, hashed, lay)])
      else None
  }

  predicate Inside(f: seq<Byte>, s: Span) {
    s.start <= s.end <= |f|
  }

  /** The bytes of the spans, one after the other. */
  function Content(f: seq<Byte>, spans: seq<Span>): seq<Byte> {
    if spans == [] then []
    else
      var s := spans[|spans| - 1];
      Content(f, spans[..|spans| - 1]) + if Inside(f, s) then f[s.start..s.end] else []
  }

  lemma {:induction false} ContentConcat(f: seq<Byte>, a: seq<Span>, b: seq<Span>)
    ensures Content(f, a + b) == Content(f, a) + Content(f, b)
    decreases |b|
  {
    hide Inside;
    if b == [] {
      assert a + b == a;
    } else {
      var n := |b| - 1;
      ContentConcat(f, a, b[..n]);
      var all := a + b;
      assert all[..|all| - 1] == a + b[..n] && all[|all| - 1] == b[n];
    }
  }

  lemma ContentOne(f: seq<Byte>, s: Span)
    ensures Content(f, [s]) == if Inside(f, s) then f[s.start..s.end] else []
  {
    assert [s][..0] == [];
  }
}

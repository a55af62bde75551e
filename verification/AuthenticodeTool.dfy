/** The digest walk of the command-line tool, written independently of the driver's. */
module AuthenticodeTool {
  import opened Options
  import opened Bytes
  import opened StableSort
  import opened Authenticode

  /** The tool drops empty pieces at the end. */
  function Visible(spans: seq<Span>): (r: seq<Span>)
    ensures forall i :: 0 <= i < |r| ==> r[i].start < r[i].end
  {
    if spans == [] then []
    else
      var s := spans[|spans| - 1];
      Visible(spans[..|spans| - 1]) + if s.start < s.end then [s] else []
  }

  lemma {:induction false} VisibleContent(f: seq<Byte>, spans: seq<Span>)
    ensures Content(f, Visible(spans)) == Content(f, spans)
  {
    if spans != [] {
      var k := |spans| - 1;
      VisibleContent(f, spans[..k]);
      ContentConcat(f, Visible(spans[..k]), if spans[k].start < spans[k].end then [spans[k]] else []);
      ContentOne(f, spans[k]);
    }
  }

  /** The header pieces between the skipped fields. */
  method HeaderPieces(lay: Layout) returns (pieces: seq<Span>)
    ensures pieces == HeaderSpans(lay)
  {
    var skips := [Span(lay.checksum, lay.checksum + 4)];
    if lay.certEntry.Some? {
      skips := skips + [Span(lay.certEntry.value, lay.certEntry.value + 8)];
    }
    pieces := [];
    var pos: nat := 0;
    var i := 0;
    while i < |skips|
      invariant 0 <= i <= |skips| <= 2
      invariant i == 0 ==> pos == 0 && pieces == []
      invariant i == 1 ==> pos == skips[0].end && pieces == [Span(0, skips[0].start)]
      invariant i == 2 ==> pos == skips[1].end && pieces == [Span(0, skips[0].start), Span(skips[0].end, skips[1].start)]
    {
      pieces := pieces + [Span(pos, skips[i].start)];
      pos := skips[i].end;
      i := i + 1;
    }
    pieces := pieces + [Span(pos, lay.headers)];
  }

  /** The non-empty sections, in table order. */
  method Collect(data: seq<Byte>, lay: Layout) returns (secs: seq<Section>)
    requires lay.sectab + 40 * lay.nsec <= |data|
    ensures secs == NonEmpty(Sections(data, lay, lay.nsec))
  {
    hide SectionAt;
    secs := [];
    var i := 0;
    while i < lay.nsec
      invariant i <= lay.nsec && secs == NonEmpty(Sections(data, lay, i))
    {
      var x := SectionAt(data, lay, i);
      assert Sections(data, lay, i + 1)[..i] == Sections(data, lay, i);
      if x.size != 0 {
        secs := secs + [x];
      }
      i := i + 1;
    }
  }

  method AuthenticodePieces(data: seq<Byte>) returns (r: Option<seq<Span>>)
    ensures r.Some? <==> Coverage(data).Some?
    ensures r.Some? ==> r.value == Visible(Coverage(data).value)
    ensures r.Some? ==> Content(data, r.value) == Content(data, Coverage(data).value)
  {
    hide NonEmpty, ParseLayout, Content, Sorted, Sections, SectionSpans, HeaderSpans, Fits, Hashed, Visible;
    var parsed := ParseLayout(data);
    if parsed.None? {
      return None;
    }
    var lay, n := parsed.value, |data|;
    var pieces := HeaderPieces(lay);
    var secs := Collect(data, lay);
    var ok, more, hashed := SectionPieces(n, lay.headers, Sorted(secs));
    if !ok {
      return None;
    }
    pieces := pieces + more;
    if n > hashed {
      var extra := n - hashed;
      if lay.certSize != 0 {
        if lay.certOff + lay.certSize > n || lay.certSize > extra {
          return None;
        }
        extra := extra - lay.certSize;
      }
      pieces := pieces + [Span(hashed, hashed + extra)];
    }
    ghost var spans := Coverage(data).value;
    assert spans == HeaderSpans(lay) + more + [TailSpan(n, hashed, lay)];
    assert spans[..|spans| - 1] == HeaderSpans(lay) + more;
    Tail(pieces, spans);
    VisibleContent(data, spans);
    return Some(Visible(pieces));
  }

  /** The pieces of the sorted sections, and how many bytes are accounted for after them. */
  method SectionPieces(n: nat, headers: nat, sorted: seq<Section>) returns (ok: bool, pieces: seq<Span>, hashed: nat)
    ensures ok == Fits(n, headers, sorted)
    ensures ok ==> pieces == SectionSpans(sorted) && hashed == Hashed(headers, sorted)
  {
    pieces, hashed := [], headers;
    var i := 0;
    while i < |sorted|
      invariant i <= |sorted| && hashed == Hashed(headers, sorted[..i]) && Fits(n, headers, sorted[..i])
      invariant pieces == SectionSpans(sorted[..i])
    {
      var x := sorted[i];
      assert sorted[..i + 1][..i] == sorted[..i];
      if x.offset + x.size > n || hashed + x.size > n {
        NotFitting(n, headers, sorted, i + 1);
        return false, pieces, hashed;
      }
      pieces := pieces + [Span(x.offset, x.offset + x.size)];
      hashed := hashed + x.size;
      i := i + 1;
    }
    assert sorted[..i] == sorted;
    ok := true;
  }

  lemma Tail(pieces: seq<Span>, spans: seq<Span>)
    requires spans != []
    requires pieces == spans || (pieces == spans[..|spans| - 1] && spans[|spans| - 1].start == spans[|spans| - 1].end)
    ensures Visible(pieces) == Visible(spans)
  {
  }

  lemma {:induction false} NotFitting(n: nat, headers: nat, s: seq<Section>, k: nat)
    requires k <= |s| && !Fits(n, headers, s[..k])
    ensures !Fits(n, headers, s)
    decreases |s| - k
  {
    if k < |s| {
      assert s[..k + 1][..k] == s[..k];
      NotFitting(n, headers, s, k + 1);
    } else {
      assert s[..k] == s;
    }
  }
}

/**
 Classification of a modified run of kernel text: which changes look like the kernel's own patch sites.
 */
module TextSites {
  import opened Bytes

  const ADDRESS_SPACE := 0x1_0000_0000_0000_0000

  const NOP5_P6: seq<Byte> := [0x0f, 0x1f, 0x44, 0x00, 0x00]
  const NOP5_K8: seq<Byte> := [0x66, 0x66, 0x90, 0x66, 0x90]
  const XOR5: seq<Byte> := [0x2e, 0x2e, 0x2e, 0x31, 0xc0]
  const RET5: seq<Byte> := [0xc3, 0xcc, 0xcc, 0xcc, 0xcc]

  datatype Form = Other | Nop5 | Call | Jmp | Xor5 | Ret5

  function Form5(p: seq<Byte>): Form
    requires |p| == 5
  {
    if p == NOP5_P6 || p == NOP5_K8 then Nop5
    else if p[0] == 0xe8 then Call
    else if p[0] == 0xe9 then Jmp
    else if p == XOR5 then Xor5
    else if p == RET5 then Ret5
    else Other
  }

  /** The little-endian signed 32-bit operand after the opcode byte. */
  function Rel32(p: seq<Byte>): int
    requires |p| == 5
  {
    var u := Rd32(p, 1);
    if u < 0x8000_0000 then u else u - 0x1_0000_0000
  }

  function BranchTarget(site: nat, p: seq<Byte>): nat
    requires |p| == 5
  {
    (site + 5 + Rel32(p)) % ADDRESS_SPACE
  }

  /** The five bytes of a CALL (0xe8) or JMP (0xe9) at `site` to `target`, as an assembler lays them out. */
  function Branch(op: Byte, site: nat, target: nat): (p: seq<Byte>)
    ensures |p| == 5
  {
    [op] + Le32((target - site - 5) % 0x1_0000_0000)
  }

  /** Every target within reach is read back. */
  lemma BranchReadBack(op: Byte, site: nat, target: nat)
    requires target < ADDRESS_SPACE && -0x8000_0000 <= target - site - 5 < 0x8000_0000
    ensures BranchTarget(site, Branch(op, site, target)) == target
  {
    var p, d := Branch(op, site, target), target - site - 5;
    assert p[1..5] == Le32(d % 0x1_0000_0000);
    RdLe32(p, 1, d % 0x1_0000_0000);
    assert Rel32(p) == d;
  }

  datatype Range = Range(base: nat, size: nat) {
    predicate Contains(addr: nat) {
      base <= addr < base + size
    }
  }

  /** What is known to be code: the kernel image, the tracked modules, and the area modules live in. */
  datatype Code = Code(kernelText: Range, modules: seq<Range>, moduleArea: Range) {
    predicate InTrackedModule(addr: nat) {
      exists i :: 0 <= i < |modules| && modules[i].Contains(addr)
    }
  }

  datatype Verdict = Benign | Watch | Critical {
    function Rank(): nat {
      match this case Benign => 0 case Watch => 1 case Critical => 2
    }
  }

  function Worse(a: Verdict, b: Verdict): Verdict {
    if b.Rank() > a.Rank() then b else a
  }

  /** The change under examination: `text` is the baseline of `region`, and [rs, re) becomes `bytes`. */
  datatype Change = Change(code: Code, region: Range, text: seq<Byte>, rs: nat, re: nat, bytes: seq<Byte>) {
    predicate WellFormed() {
      |text| == region.size && rs <= re <= |text| && |bytes| == re - rs
    }

    /** The byte at `pos` after the change; bytes outside the run are unchanged. */
    function NewAt(pos: nat): Byte
      requires WellFormed() && pos < |text|
    {
      if rs <= pos < re then bytes[pos - rs] else text[pos]
    }

    predicate Modified(pos: nat)
      requires WellFormed()
    {
      rs <= pos < re && bytes[pos - rs] != text[pos]
    }

    function Old5(s: nat): (w: seq<Byte>)
      requires WellFormed() && s + 5 <= |text|
      ensures |w| == 5
    {
      text[s..s + 5]
    }

    function New5(s: nat): (w: seq<Byte>)
      requires WellFormed() && s + 5 <= |text|
      ensures |w| == 5
    {
      [NewAt(s), NewAt(s + 1), NewAt(s + 2), NewAt(s + 3), NewAt(s + 4)]
    }

    /** NOP2 <-> JMP8 at `pos`. */
    predicate ShortFlip(pos: nat)
      requires WellFormed()
    {
      && pos + 2 <= |text|
      && (|| (text[pos] == 0x66 && text[pos + 1] == 0x90 && NewAt(pos) == 0xeb)
          || (NewAt(pos) == 0x66 && NewAt(pos + 1) == 0x90 && text[pos] == 0xeb))
    }

    /** A branch target the kernel's own patching may produce at a site of this region. */
    predicate Allowed(form: Form, target: nat) {
      || code.kernelText.Contains(target) || region.Contains(target)
      || (form.Call? && (code.InTrackedModule(target) || code.moduleArea.Contains(target)))
    }

    /** The NOP5 / CALL rel32 / JMP rel32 transitions the kernel makes at its own sites. */
    predicate LongFlip(s: nat)
      requires WellFormed()
    {
      && s + 5 <= |text|
      && Form5(Old5(s)) in {Nop5, Call, Jmp}
      && Form5(New5(s)) in {Nop5, Call, Jmp}
      && (Form5(New5(s)) != Nop5 ==> Allowed(Form5(New5(s)), BranchTarget(region.base + s, New5(s))))
    }
  }

  datatype Judgement = NoSite | Site(v: Verdict, unknownTarget: bool)

  /** Judges the five bytes at `s` as a site found `delta` bytes before the modified byte. */
  function JudgeLong(c: Change, s: nat, delta: nat): (j: Judgement)
    requires c.WellFormed() && s + 5 <= |c.text|
    ensures j.Site? && j.v.Benign? ==> c.LongFlip(s)
  {
    var o, n := c.Old5(s), c.New5(s);
    var fo, fn := Form5(o), Form5(n);
    var t := BranchTarget(c.region.base + s, n);
    if delta > 0 && (o[0] != n[0] || (o[0] != 0xe8 && o[0] != 0xe9)) then NoSite
    else if fo.Other? && fn.Other? then NoSite
    else if fo.Other? || fn.Other? then
      if fo.Other? && fn.Jmp? && delta == 0 then
        Site(if c.code.moduleArea.Contains(t) && !c.code.InTrackedModule(t) && !c.code.kernelText.Contains(t) then Watch
             else Critical, true)
      else NoSite
    else if fo.Xor5? || fo.Ret5? || fn.Xor5? || fn.Ret5? then Site(Watch, false)
    else if (fn.Call? || fn.Jmp?) && !c.Allowed(fn, t) then
      Site(if fn.Jmp? && c.code.moduleArea.Contains(t) && !c.code.InTrackedModule(t) then Watch else Critical, true)
    else Site(Benign, false)
  }

  datatype Window = Window(start: nat, end: nat, v: Verdict, unknownTarget: bool)

  /** The five bytes at `s` are not a site for a modified byte at `pos`. */
  ghost predicate Silent(c: Change, s: nat, pos: nat)
    requires c.WellFormed()
  {
    s <= pos && s + 5 <= |c.text| ==> JudgeLong(c, s, pos - s).NoSite?
  }

  /** `w` is what the site search finds at `pos`: the short form first, then the nearest long window. */
  ghost predicate Finds(c: Change, pos: nat, first: bool, w: Window)
    requires c.WellFormed()
  {
    if c.ShortFlip(pos) then w == Window(pos, pos + 2, Benign, false)
    else
      && w.start <= pos < w.end == w.start + 5 <= |c.text|
      && (first || w.start == pos)
      && JudgeLong(c, w.start, pos - w.start) == Site(w.v, w.unknownTarget)
      && forall s: nat :: w.start < s ==> Silent(c, s, pos)
  }

  /** No site is recognised at `pos`. */
  ghost predicate FindsNone(c: Change, pos: nat, first: bool)
    requires c.WellFormed()
  {
    && !c.ShortFlip(pos)
    && forall s: nat :: pos <= s + (if first then 4 else 0) ==> Silent(c, s, pos)
  }

  // ----- What a site deserves, byte by byte -----

  /** One of the two five-byte NOPs. */
  predicate IsNop(p: seq<Byte>) {
    p == [0x0f, 0x1f, 0x44, 0x00, 0x00] || p == [0x66, 0x66, 0x90, 0x66, 0x90]
  }

  /** A NOP, CALL or JMP. */
  predicate Flips(p: seq<Byte>) {
    |p| == 5 && (IsNop(p) || p[0] == 0xe8 || p[0] == 0xe9)
  }

  /** What a static call without a target becomes: "return 0", or a return. */
  predicate IsStub(p: seq<Byte>) {
    p == [0x2e, 0x2e, 0x2e, 0x31, 0xc0] || p == [0xc3, 0xcc, 0xcc, 0xcc, 0xcc]
  }

  predicate Known(p: seq<Byte>) {
    Flips(p) || IsStub(p)
  }

  /** The five bytes `o` becoming `n` are a patch site of some kind. */
  predicate Recognised(o: seq<Byte>, n: seq<Byte>)
    requires |o| == |n| == 5
  {
    (Known(o) && Known(n)) || (!Known(o) && n[0] == 0xe9)
  }

  /** What the five bytes at `s` deserve, once they are taken for a site. */
  ghost predicate Deserves(c: Change, s: nat, v: Verdict, unknownTarget: bool)
    requires c.WellFormed() && s + 5 <= |c.text|
  {
    var o, n, t := c.text[s..s + 5], c.New5(s), BranchTarget(c.region.base + s, c.New5(s));
    var kernel, own := c.code.kernelText.Contains(t), c.region.Contains(t);
    var tracked, area := c.code.InTrackedModule(t), c.code.moduleArea.Contains(t);
    // a jump over ordinary code: at best into a detour buffer in the module area
    && (!Known(o) && n[0] == 0xe9 ==> unknownTarget && v == if area && !tracked && !kernel then Watch else Critical)
    // a static call silenced or given a target
    && (Known(o) && Known(n) && (IsStub(o) || IsStub(n)) ==> !unknownTarget && v == Watch)
    // a call site: to known code, or somewhere else
    && (Flips(o) && n[0] == 0xe8 ==>
          if kernel || own || tracked || area then !unknownTarget && v == Benign else unknownTarget && v == Critical)
    && (Flips(o) && n[0] == 0xe9 ==>
          if kernel || own then !unknownTarget && v == Benign
          else unknownTarget && v == if area && !tracked then Watch else Critical)
    && (Flips(o) && IsNop(n) ==> !unknownTarget && v == Benign)
  }

  /** Every judgement is the one deserved, and a window is judged exactly when it is recognised. */
  lemma JudgedRight(c: Change, s: nat, delta: nat)
    requires c.WellFormed() && s + 5 <= |c.text|
    ensures var j, o, n := JudgeLong(c, s, delta), c.text[s..s + 5], c.New5(s);
            && (j.Site? ==> Deserves(c, s, j.v, j.unknownTarget))
            && (delta == 0 ==> (j.Site? <==> Recognised(o, n)))
            && (delta > 0 ==> (j.Site? <==> o[0] == n[0] && (o[0] == 0xe8 || o[0] == 0xe9)))
  {
  }

  /** A window the search may answer with: a short flip, or five bytes with what they deserve. */
  ghost predicate WindowRight(c: Change, w: Window)
    requires c.WellFormed()
  {
    || (w == Window(w.start, w.start + 2, Benign, false) && c.ShortFlip(w.start))
    || (w.end == w.start + 5 <= |c.text| && Deserves(c, w.start, w.v, w.unknownTarget))
  }

  method MatchSite(c: Change, pos: nat, first: bool) returns (found: bool, w: Window)
    requires c.WellFormed() && pos < |c.text|
    ensures found ==> Finds(c, pos, first, w) && WindowRight(c, w)
    ensures !found ==> FindsNone(c, pos, first)
  {
    hide JudgeLong, Deserves;
    w := Window(pos, pos, Benign, false);
    if pos + 2 <= |c.text| && c.ShortFlip(pos) {
      return true, Window(pos, pos + 2, Benign, false);
    }
    var delta := 0;
    while delta <= (if first then 4 else 0)
      invariant delta <= (if first then 5 else 1)
      invariant forall s: nat :: pos < s + delta ==> Silent(c, s, pos)
    {
      if delta > pos {
        break;
      }
      var s := pos - delta;
      if s + 5 <= |c.text| {
        var j := JudgeLong(c, s, delta);
        if j.Site? {
          JudgedRight(c, s, delta);
          return true, Window(s, s + 5, j.v, j.unknownTarget);
        }
      }
      assert Silent(c, s, pos);
      delta := delta + 1;
    }
    return false, w;
  }

  lemma FoundSite(c: Change, pos: nat, first: bool, w: Window)
    requires c.WellFormed() && Finds(c, pos, first, w)
    ensures w.start <= pos < w.end && (first || w.start == pos)
    ensures w.v.Benign? ==> PatchSite(c, w)
  {
  }

  datatype VerdictInfo = VerdictInfo(v: Verdict, unknownTarget: bool, breakpoint: bool)

  /** Where the bytes not yet accounted for begin. */
  function End(c: Change, ws: seq<Window>): nat {
    if ws == [] then c.rs else ws[|ws| - 1].end
  }

  /** The windows of a scan, each the site the search finds at the next modified byte after the one before. */
  ghost predicate Scan(c: Change, ws: seq<Window>, at: seq<nat>)
    requires c.WellFormed()
  {
    && |at| == |ws|
    && (ws != [] ==>
        var k := |ws| - 1;
        c.Modified(at[k]) && Finds(c, at[k], k == 0, ws[k]) && Scan(c, ws[..k], at[..k])
        && forall p: nat :: End(c, ws[..k]) <= p < at[k] ==> !c.Modified(p))
  }

  ghost predicate Disjoint(ws: seq<Window>) {
    forall i, j :: 0 <= i < j < |ws| ==> ws[i].end <= ws[j].start
  }

  ghost predicate Covered(ws: seq<Window>, pos: nat) {
    exists i :: 0 <= i < |ws| && ws[i].start <= pos < ws[i].end
  }

  function Worst(ws: seq<Window>): Verdict {
    if ws == [] then Benign else Worse(Worst(ws[..|ws| - 1]), ws[|ws| - 1].v)
  }

  predicate AnyUnknown(ws: seq<Window>) {
    ws != [] && (AnyUnknown(ws[..|ws| - 1]) || ws[|ws| - 1].unknownTarget)
  }

  /** A window the kernel's own patching accounts for. */
  ghost predicate PatchSite(c: Change, w: Window)
    requires c.WellFormed()
  {
    (w.end == w.start + 2 && c.ShortFlip(w.start)) || (w.end == w.start + 5 && c.LongFlip(w.start))
  }

  /** Every modified byte lies in one of a set of disjoint windows, each one of the kernel's own patch sites. */
  ghost predicate Explained(c: Change)
    requires c.WellFormed()
  {
    exists ws: seq<Window> ::
      && (forall i :: 0 <= i < |ws| ==> PatchSite(c, ws[i]))
      && Disjoint(ws)
      && forall p: nat :: c.Modified(p) ==> Covered(ws, p)
  }

  lemma {:induction false} BenignSite(c: Change, ws: seq<Window>, at: seq<nat>, i: nat)
    requires c.WellFormed() && Scan(c, ws, at) && Worst(ws).Benign? && i < |ws|
    ensures PatchSite(c, ws[i])
  {
    var k := |ws| - 1;
    if i == k {
      FoundSite(c, at[k], k == 0, ws[k]);
    } else {
      BenignSite(c, ws[..k], at[..k], i);
    }
  }

  lemma BenignExplained(c: Change, ws: seq<Window>, at: seq<nat>, pos: nat)
    requires c.WellFormed() && Scanned(c, ws, at, pos) && c.re <= pos && Worst(ws).Benign?
    ensures Explained(c)
  {
    forall i | 0 <= i < |ws|
      ensures PatchSite(c, ws[i])
    {
      BenignSite(c, ws, at, i);
    }
  }

  /** Where a scan has come to: `ws` account for every modified byte before `pos`. */
  ghost predicate Scanned(c: Change, ws: seq<Window>, at: seq<nat>, pos: nat)
    requires c.WellFormed()
  {
    && c.rs <= pos && Scan(c, ws, at) && Disjoint(ws)
    && (forall i :: 0 <= i < |ws| ==> ws[i].end <= pos)
    && (forall p: nat :: End(c, ws) <= p < pos ==> !c.Modified(p))
    && (forall p: nat :: p < pos && c.Modified(p) ==> Covered(ws, p))
  }

  lemma ScannedScan(c: Change, ws: seq<Window>, at: seq<nat>, pos: nat)
    requires c.WellFormed() && Scanned(c, ws, at, pos)
    ensures Scan(c, ws, at)
  {
  }

  lemma ScanStart(c: Change)
    requires c.WellFormed()
    ensures Scanned(c, [], [], c.rs) && Worst([]).Benign? && !AnyUnknown([])
  {
  }

  lemma ScanSkip(c: Change, ws: seq<Window>, at: seq<nat>, pos: nat)
    requires c.WellFormed() && Scanned(c, ws, at, pos) && !c.Modified(pos)
    ensures Scanned(c, ws, at, pos + 1)
  {
  }

  lemma ScanNext(c: Change, ws: seq<Window>, at: seq<nat>, pos: nat, w: Window)
    requires c.WellFormed() && Scanned(c, ws, at, pos) && c.Modified(pos) && Finds(c, pos, ws == [], w)
    ensures pos < w.end && Scanned(c, ws + [w], at + [pos], w.end)
    ensures Worst(ws + [w]) == Worse(Worst(ws), w.v)
    ensures AnyUnknown(ws + [w]) == (AnyUnknown(ws) || w.unknownTarget)
  {
    hide Finds, Worst, AnyUnknown, Scan, Covered, Disjoint, PatchSite, Worse;
    FoundSite(c, pos, ws == [], w);
    ScanLonger(c, ws, at, pos, w);
    CoverLonger(c, ws, at, pos, w);
    WorstLonger(ws, w);
    EndsLonger(c, ws, at, pos, w);
  }

  lemma EndsLonger(c: Change, ws: seq<Window>, at: seq<nat>, pos: nat, w: Window)
    requires c.WellFormed() && Scanned(c, ws, at, pos) && w.start <= pos < w.end && (ws == [] || w.start == pos)
    ensures Disjoint(ws + [w]) && End(c, ws + [w]) == w.end && c.rs <= w.end
    ensures forall i :: 0 <= i < |ws + [w]| ==> (ws + [w])[i].end <= w.end
  {
    hide Scan, Covered, Disjoint;
    DisjointLonger(ws, w);
  }

  lemma DisjointLonger(ws: seq<Window>, w: Window)
    requires Disjoint(ws) && forall i :: 0 <= i < |ws| ==> ws[i].end <= w.start
    ensures Disjoint(ws + [w])
  {
  }

  lemma WorstLonger(ws: seq<Window>, w: Window)
    ensures Worst(ws + [w]) == Worse(Worst(ws), w.v)
    ensures AnyUnknown(ws + [w]) == (AnyUnknown(ws) || w.unknownTarget)
  {
    assert (ws + [w])[..|ws|] == ws;
  }

  lemma ScanLonger(c: Change, ws: seq<Window>, at: seq<nat>, pos: nat, w: Window)
    requires c.WellFormed() && Scanned(c, ws, at, pos) && c.Modified(pos) && Finds(c, pos, ws == [], w)
    ensures Scan(c, ws + [w], at + [pos])
  {
    hide Finds, Disjoint, Covered;
    assert (ws + [w])[..|ws|] == ws && (at + [pos])[..|ws|] == at;
  }

  lemma CoverLonger(c: Change, ws: seq<Window>, at: seq<nat>, pos: nat, w: Window)
    requires c.WellFormed() && Scanned(c, ws, at, pos) && w.start <= pos < w.end
    ensures forall p: nat :: p < w.end && c.Modified(p) ==> Covered(ws + [w], p)
  {
    hide Scan, Disjoint;
    var ws' := ws + [w];
    forall p: nat | p < w.end && c.Modified(p)
      ensures Covered(ws', p)
    {
      if w.start <= p {
        assert ws'[|ws|] == w;
      } else {
        assert Covered(ws, p);
        var i :| 0 <= i < |ws| && ws[i].start <= p < ws[i].end;
        assert ws'[i] == ws[i];
      }
    }
  }

  /** An unexplained byte is critical, unless the whole run is one byte that is or was an int3. */
  function Unmatched(c: Change, v: Verdict): Verdict
    requires c.WellFormed() && c.rs < c.re
  {
    if LoneInt3(c) then Worse(v, Watch) else Critical
  }

  function Advance(pos: nat, end: nat): nat {
    if end > pos then end else pos + 1
  }

  // ----- The answers to whole runs -----

  /** Every window of a scan is answered as it deserves, and none is worse than the worst. */
  lemma {:induction false} EachRight(c: Change, ws: seq<Window>, at: seq<nat>, i: nat)
    requires c.WellFormed() && Scan(c, ws, at) && i < |ws|
    ensures WindowRight(c, ws[i]) && ws[i].v.Rank() <= Worst(ws).Rank()
  {
    hide Deserves, JudgeLong;
    var k := |ws| - 1;
    if i == k {
      if !c.ShortFlip(at[k]) {
        JudgedRight(c, ws[k].start, at[k] - ws[k].start);
      }
    } else {
      EachRight(c, ws[..k], at[..k], i);
    }
  }

  /**
   The run lies in the five bytes at `s`, which the search comes to first: `s` is the first modified byte, or that byte
   is in the operand of the branch at `s` and nothing between the two looks like a site.
   */
  ghost predicate AimedAt(c: Change, s: nat)
    requires c.WellFormed()
  {
    && s <= c.rs < c.re <= s + 5 <= |c.text| && c.Modified(c.rs) && !c.ShortFlip(c.rs)
    && if s == c.rs then Recognised(c.text[s..s + 5], c.New5(s))
       else
         && (c.text[s] == 0xe8 || c.text[s] == 0xe9)
         && (forall d :: s < d < c.rs ==> c.text[d] != 0xe8 && c.text[d] != 0xe9)
         && (c.rs + 5 <= |c.text| ==> !Recognised(c.text[c.rs..c.rs + 5], c.New5(c.rs)))
  }

  /** Nothing at the first modified byte, nor in the four bytes before it, looks like a site. */
  ghost predicate Unrecognised(c: Change)
    requires c.WellFormed()
  {
    && c.rs < c.re && c.Modified(c.rs) && !c.ShortFlip(c.rs)
    && (c.rs + 5 <= |c.text| ==> !Recognised(c.text[c.rs..c.rs + 5], c.New5(c.rs)))
    && (forall d :: 0 <= d < c.rs <= d + 4 ==> c.text[d] != 0xe8 && c.text[d] != 0xe9)
  }

  predicate LoneInt3(c: Change)
    requires c.WellFormed()
  {
    c.re - c.rs == 1 && (c.bytes[0] == 0xcc || c.text[c.rs] == 0xcc)
  }

  /** The answer to a run inside one site, to a short flip, and to a run that is none of these from its first byte. */
  ghost predicate Answered(c: Change, v: Verdict, unknownTarget: bool, breakpoint: bool)
    requires c.WellFormed()
  {
    && (forall s: nat :: AimedAt(c, s) ==> Deserves(c, s, v, unknownTarget) && !breakpoint)
    && (c.Modified(c.rs) && c.ShortFlip(c.rs) && c.re <= c.rs + 2 ==> v == Benign && !unknownTarget && !breakpoint)
    && (Unrecognised(c) ==> v == (if LoneInt3(c) then Watch else Critical) && !unknownTarget && breakpoint == LoneInt3(c))
  }

  /** A run inside one of the kernel's own five-byte sites, whose opcode byte changes. */
  ghost predicate OpcodeFlip(c: Change)
    requires c.WellFormed()
  {
    c.Modified(c.rs) && c.re <= c.rs + 5 && c.LongFlip(c.rs)
  }

  /** The scan accepts every such change: the search cannot be led to another window. */
  lemma OpcodeFlipAccepted(c: Change, ws: seq<Window>, at: seq<nat>, stop: nat)
    requires c.WellFormed() && OpcodeFlip(c) && Scanned(c, ws, at, stop) && Ended(c, ws, stop)
    ensures stop >= c.re && Worst(ws).Benign?
  {
    hide Scanned, Ended, Worst;
    assert AimedAt(c, c.rs);
    AimedScan(c, c.rs, ws, at, stop);
  }

  /** A scan ends at the end of the run or at a modified byte where nothing is found. */
  ghost predicate Ended(c: Change, ws: seq<Window>, stop: nat)
    requires c.WellFormed()
  {
    stop >= c.re || (c.Modified(stop) && FindsNone(c, stop, ws == []))
  }

  lemma {:induction false} FirstWindow(c: Change, ws: seq<Window>, at: seq<nat>)
    requires c.WellFormed() && Scan(c, ws, at) && ws != [] && c.Modified(c.rs)
    ensures Finds(c, c.rs, true, ws[0])
  {
    hide Finds;
    if |ws| > 1 {
      FirstWindow(c, ws[..|ws| - 1], at[..|ws| - 1]);
    } else {
      assert at[0] == c.rs;
    }
  }

  /** With nothing found, the scan has stopped at the first byte. */
  lemma StoppedAtOnce(c: Change, ws: seq<Window>, at: seq<nat>, stop: nat)
    requires c.WellFormed() && Scanned(c, ws, at, stop) && Ended(c, ws, stop) && c.Modified(c.rs) && ws == []
    ensures stop == c.rs && FindsNone(c, c.rs, true)
  {
  }

  /** The search from the first modified byte finds the window it is aimed at. */
  lemma AimFinds(c: Change, s: nat)
    requires c.WellFormed() && AimedAt(c, s)
    ensures !Silent(c, s, c.rs) && forall d: nat :: s < d ==> Silent(c, d, c.rs)
  {
    hide JudgeLong, Recognised, Deserves;
    forall d: nat | s <= d
      ensures Silent(c, d, c.rs) <==> d != s
    {
      if d <= c.rs && d + 5 <= |c.text| {
        JudgedRight(c, d, c.rs - d);
      }
    }
  }

  lemma AimedScan(c: Change, s: nat, ws: seq<Window>, at: seq<nat>, stop: nat)
    requires c.WellFormed() && AimedAt(c, s) && Scanned(c, ws, at, stop) && Ended(c, ws, stop)
    ensures stop >= c.re && Deserves(c, s, Worst(ws), AnyUnknown(ws))
  {
    hide JudgeLong, Recognised, Deserves, FindsNone, Finds, Silent, Scan, Worst, AnyUnknown;
    AimFinds(c, s);
    if ws == [] {
      StoppedAtOnce(c, ws, at, stop);
      NotNone(c, s);
      assert false;
    } else {
      FirstWindow(c, ws, at);
      FoundThere(c, s, ws[0]);
      OneWindow(c, ws, at);
      WorstOne(ws);
    }
  }

  lemma NotNone(c: Change, s: nat)
    requires c.WellFormed() && AimedAt(c, s)
    ensures !FindsNone(c, c.rs, true)
  {
    hide JudgeLong, Recognised, Deserves;
    AimFinds(c, s);
  }

  /** What is found is the window aimed at, judged as it deserves. */
  lemma FoundThere(c: Change, s: nat, w: Window)
    requires c.WellFormed() && AimedAt(c, s) && Finds(c, c.rs, true, w)
    ensures w.start == s && w.end == s + 5 && Deserves(c, s, w.v, w.unknownTarget)
  {
    hide JudgeLong, Recognised, Deserves;
    AimFinds(c, s);
    JudgedRight(c, s, c.rs - s);
    assert !Silent(c, w.start, c.rs) && !Silent(c, s, c.rs);
  }

  lemma WorstOne(ws: seq<Window>)
    requires |ws| == 1
    ensures Worst(ws) == ws[0].v && AnyUnknown(ws) == ws[0].unknownTarget
  {
    assert ws[..0] == [];
  }

  /** A short flip is accepted. */
  lemma ShortScan(c: Change, ws: seq<Window>, at: seq<nat>, stop: nat)
    requires c.WellFormed() && Scanned(c, ws, at, stop) && Ended(c, ws, stop)
    requires c.Modified(c.rs) && c.ShortFlip(c.rs) && c.re <= c.rs + 2
    ensures stop >= c.re && Worst(ws) == Benign && !AnyUnknown(ws)
  {
    hide JudgeLong;
    if ws == [] {
      StoppedAtOnce(c, ws, at, stop);
      assert false;
    } else {
      FirstWindow(c, ws, at);
      OneWindow(c, ws, at);
      WorstOne(ws);
    }
  }

  /** Where nothing is recognised the scan stops at once. */
  lemma UnrecognisedScan(c: Change, ws: seq<Window>, at: seq<nat>, stop: nat)
    requires c.WellFormed() && Scanned(c, ws, at, stop) && Ended(c, ws, stop) && Unrecognised(c)
    ensures ws == [] && stop == c.rs
  {
    hide JudgeLong, Recognised, Deserves;
    if ws == [] {
      StoppedAtOnce(c, ws, at, stop);
    } else {
      FirstWindow(c, ws, at);
      JudgedRight(c, ws[0].start, c.rs - ws[0].start);
      assert false;
    }
  }

  /** A window that reaches the end of the run leaves nothing for a second. */
  lemma OneWindow(c: Change, ws: seq<Window>, at: seq<nat>)
    requires c.WellFormed() && Scan(c, ws, at) && Disjoint(ws) && (ws != [] ==> c.re <= ws[0].end)
    ensures |ws| <= 1
  {
    if |ws| > 1 {
      FoundSite(c, at[|ws| - 1], false, ws[|ws| - 1]);
    }
  }

  lemma AnswerIs(c: Change, out: VerdictInfo, ws: seq<Window>, at: seq<nat>, stop: nat)
    requires c.WellFormed() && Scanned(c, ws, at, stop) && Ended(c, ws, stop)
    requires stop >= c.re ==> out.v == Worst(ws)
    requires stop < c.re ==> out.v == Unmatched(c, Worst(ws))
    requires out.unknownTarget == AnyUnknown(ws) && out.breakpoint == (stop < c.re && LoneInt3(c))
    ensures Answered(c, out.v, out.unknownTarget, out.breakpoint)
  {
    hide Scanned, Ended, Deserves, Recognised;
    forall s: nat | AimedAt(c, s)
      ensures Deserves(c, s, out.v, out.unknownTarget) && !out.breakpoint
    {
      AimedScan(c, s, ws, at, stop);
    }
    if c.Modified(c.rs) && c.ShortFlip(c.rs) && c.re <= c.rs + 2 {
      ShortScan(c, ws, at, stop);
    }
    if Unrecognised(c) {
      UnrecognisedScan(c, ws, at, stop);
    }
  }

  /**
   Classifies the change site by site.  `ws` are the windows the scan consumed, found
   at the bytes `at`, and `stop` is where it ended:
   either at the end of the run, or at the first modified byte no site accounts for.
   */
  method Classify(c: Change) returns (out: VerdictInfo, ghost ws: seq<Window>, ghost at: seq<nat>, ghost stop: nat)
    requires c.WellFormed()
    ensures Scanned(c, ws, at, stop) && Ended(c, ws, stop)
    ensures forall i :: 0 <= i < |ws| ==> WindowRight(c, ws[i]) && ws[i].v.Rank() <= out.v.Rank()
    // the verdict is the worst over the windows, made at least WATCH or CRITICAL by an unexplained byte
    ensures stop >= c.re ==> out.v == Worst(ws)
    ensures stop < c.re ==> out.v == Unmatched(c, Worst(ws))
    ensures out.v.Benign? ==> Explained(c)
    ensures OpcodeFlip(c) ==> out.v.Benign?
    ensures out.unknownTarget == AnyUnknown(ws) && out.breakpoint == (stop < c.re && LoneInt3(c))
    ensures Answered(c, out.v, out.unknownTarget, out.breakpoint)
  {
    hide Finds, FindsNone, Explained, OpcodeFlip, Scanned, Scan, Worst, AnyUnknown, Answered, WindowRight;
    ScanStart(c);
    out := VerdictInfo(Benign, false, false);
    ws, at := [], [];
    var pos: nat := c.rs;
    var first, stuck := true, false;
    while pos < c.re && !stuck
      invariant first == (ws == []) && Scanned(c, ws, at, pos)
      invariant out.unknownTarget == AnyUnknown(ws) && out.breakpoint == (stuck && LoneInt3(c))
      invariant !stuck ==> out.v == Worst(ws)
      invariant stuck ==> c.Modified(pos) && FindsNone(c, pos, first) && out.v == Unmatched(c, Worst(ws))
      decreases !stuck, c.re - pos
    {
      if c.bytes[pos - c.rs] == c.text[pos] {
        ScanSkip(c, ws, at, pos);
        pos := pos + 1;
      } else {
        var found, w := MatchSite(c, pos, first);
        if found {
          ScanNext(c, ws, at, pos, w);
          if w.v.Rank() > out.v.Rank() {
            out := out.(v := w.v);
          }
          out := out.(unknownTarget := out.unknownTarget || w.unknownTarget);
          ws, at := ws + [w], at + [pos];
          pos := Advance(pos, w.end);
          first := false;
        } else {
          if LoneInt3(c) {
            out := out.(v := Worse(out.v, Watch), breakpoint := true);
          } else {
            out := out.(v := Critical);
          }
          stuck := true;
        }
      }
    }
    stop := pos;
    if out.v.Benign? {
      BenignExplained(c, ws, at, pos);
    }
    if OpcodeFlip(c) {
      OpcodeFlipAccepted(c, ws, at, pos);
    }
    AnswerIs(c, out, ws, at, pos);
    forall i | 0 <= i < |ws|
      ensures WindowRight(c, ws[i]) && ws[i].v.Rank() <= out.v.Rank()
    {
      ScannedScan(c, ws, at, pos);
      EachRight(c, ws, at, i);
    }
  }
}

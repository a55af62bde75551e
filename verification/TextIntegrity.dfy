/**
 Verification of one region of kernel text against its baseline copy.

 The live text is read through samples: `text(t)` is what sample number t found, byte by byte.  Nothing is
 assumed about two samples, so a sample torn by a concurrent patch is covered.
 */
module TextIntegrity {
  import opened Bytes
  import opened TextSites

  const CHUNK := 65536
  const OVERLAP := 8
  const MAX_GAP := 3

  /** What sample number k reads of the text, byte by byte; the bytes of one sample need not be read at one moment. */
  type LiveText = nat -> seq<Byte>

  /** A handled run, its verdict, and the flags that go with it. */
  datatype Run = Run(rs: nat, re: nat, v: Verdict, unknownTarget: bool, breakpoint: bool)

  const TEXT_PATCH := 0x22
  const LEVEL_WATCH := 1
  const LEVEL_CRITICAL := 2
  const KERNEL := 1
  const UNKNOWN_TARGET := 2
  const BREAKPOINT := 4

  datatype Report = Report(kind: nat, level: nat, param1: nat, param2: nat)

  ghost predicate InRuns(runs: seq<Run>, p: nat) {
    exists i :: 0 <= i < |runs| && runs[i].rs <= p < runs[i].re
  }

  /** Non-empty runs, one after the other. */
  ghost predicate InOrder(runs: seq<Run>) {
    && (forall i :: 0 <= i < |runs| ==> runs[i].rs < runs[i].re)
    && (forall i, j :: 0 <= i < j < |runs| ==> runs[i].re <= runs[j].rs)
  }

  function EndOf(runs: seq<Run>): nat {
    if runs == [] then 0 else runs[|runs| - 1].re
  }

  /** Runs in order share no byte. */
  lemma AtMostOne(runs: seq<Run>, p: nat, i: nat, j: nat)
    requires InOrder(runs) && i < |runs| && j < |runs|
    requires runs[i].rs <= p < runs[i].re && runs[j].rs <= p < runs[j].re
    ensures i == j
  {
  }

  lemma InRunsAppend(runs: seq<Run>, r: Run)
    ensures forall p: nat :: InRuns(runs + [r], p) <==> InRuns(runs, p) || r.rs <= p < r.re
  {
    forall p: nat
      ensures InRuns(runs + [r], p) <==> InRuns(runs, p) || r.rs <= p < r.re
    {
      if InRuns(runs, p) {
        var i :| 0 <= i < |runs| && runs[i].rs <= p < runs[i].re;
        assert (runs + [r])[i] == runs[i];
      }
      assert (runs + [r])[|runs|] == r;
    }
  }

  lemma InRunsConcat(a: seq<Run>, b: seq<Run>, p: nat)
    ensures InRuns(a + b, p) <==> InRuns(a, p) || InRuns(b, p)
  {
    if InRuns(a, p) {
      var i :| 0 <= i < |a| && a[i].rs <= p < a[i].re;
      assert (a + b)[i] == a[i];
    }
    if InRuns(b, p) {
      var i :| 0 <= i < |b| && b[i].rs <= p < b[i].re;
      assert (a + b)[|a| + i] == b[i];
    }
  }

  /** The chunk as far as two samples agree on it; a byte they disagree on counts as unchanged. */
  ghost function Settled(before: seq<Byte>, s1: seq<Byte>, s2: seq<Byte>, off: nat, n: nat): (cur: seq<Byte>)
    requires |before| == |s1| == |s2| && off + n <= |before|
    ensures |cur| == n
  {
    seq(n, i requires 0 <= i < n => if s1[off + i] == s2[off + i] then s1[off + i] else before[off + i])
  }

  ghost predicate DiffersSoon(before: seq<Byte>, cur: seq<Byte>, off: nat, p: nat) {
    exists q :: p <= q <= p + MAX_GAP && off <= q < off + |cur| && q < |before| && cur[q - off] != before[q]
  }

  /** No four bytes in a row are equal in [rs, re). */
  ghost predicate Dense(before: seq<Byte>, cur: seq<Byte>, off: nat, rs: nat, re: nat) {
    forall p: nat :: rs <= p && p + MAX_GAP < re ==> DiffersSoon(before, cur, off, p)
  }

  lemma DenseNext(before: seq<Byte>, cur: seq<Byte>, off: nat, rs: nat, re: nat, j: nat)
    requires off <= rs < re <= j <= re + MAX_GAP && j < off + |cur| <= |before|
    requires Dense(before, cur, off, rs, re) && cur[re - 1 - off] != before[re - 1] && cur[j - off] != before[j]
    ensures Dense(before, cur, off, rs, j + 1)
  {
    forall p: nat | rs <= p && p + MAX_GAP < j + 1
      ensures DiffersSoon(before, cur, off, p)
    {
      if p + MAX_GAP >= re {
        assert p <= re - 1 <= p + MAX_GAP || p <= j <= p + MAX_GAP;
      }
    }
  }

  /** A merged run depends only on the bytes from its start on. */
  lemma MergedSame(a: seq<Byte>, b: seq<Byte>, cur: seq<Byte>, off: nat, rs: nat, re: nat)
    requires off + |cur| <= |a| == |b| && Merged(a, cur, off, rs, re)
    requires forall p :: rs <= p < |a| ==> a[p] == b[p]
    ensures Merged(b, cur, off, rs, re)
  {
    forall p: nat | rs <= p && p + MAX_GAP < re
      ensures DiffersSoon(b, cur, off, p)
    {
      assert DiffersSoon(a, cur, off, p);
      var q :| p <= q <= p + MAX_GAP && off <= q < off + |cur| && q < |a| && cur[q - off] != a[q];
      assert a[q] == b[q];
    }
  }

  /** A merged run of differences: it begins and ends with one, holds no four equal bytes, and four follow it. */
  ghost predicate Merged(before: seq<Byte>, cur: seq<Byte>, off: nat, rs: nat, re: nat)
    requires off + |cur| <= |before|
  {
    && off <= rs < re <= off + |cur|
    && cur[rs - off] != before[rs]
    && cur[re - 1 - off] != before[re - 1]
    && Dense(before, cur, off, rs, re)
    && (forall p :: re <= p < off + |cur| && p <= re + MAX_GAP ==> cur[p - off] == before[p])
  }

  /** What one chunk check does to the baseline, and which runs it handles. */
  ghost predicate ChunkDone(before: seq<Byte>, after: seq<Byte>, off: nat, cur: seq<Byte>, runs: seq<Run>)
    requires off + |cur| <= |before| == |after|
  {
    && InOrder(runs)
    && (forall i :: 0 <= i < |runs| ==> Merged(before, cur, off, runs[i].rs, runs[i].re))
    && (forall p :: 0 <= p < |before| && !(off <= p < EndOf(runs)) ==> after[p] == before[p])
    && (forall p :: off <= p < EndOf(runs) ==> after[p] == cur[p - off])
    && (forall p :: off <= p < off + |cur| && (p < off + CHUNK || off + |cur| >= |before|) && cur[p - off] != before[p] ==>
          InRuns(runs, p))
    && (forall p :: off <= p < EndOf(runs) && cur[p - off] != before[p] ==> InRuns(runs, p))
  }

  /** A chunk check: its two samples are numbers `at` and `at + 1`, of the bytes [off, off + n). */
  datatype Check = Check(at: nat, off: nat, n: nat)

  /** The two samples of one of the chunk checks that looked at `p` both found `b` there. */
  ghost predicate FoundTwice(text: LiveText, checks: seq<Check>, p: nat, b: Byte) {
    exists c :: c in checks && c.off <= p < c.off + c.n && Agree(text, c.at, p, b)
  }

  /** The chunk checks of a pass, one after the other between sample `from` and sample `to`. */
  ghost predicate InTurn(checks: seq<Check>, from: nat, to: nat) {
    && (forall c :: c in checks ==> from <= c.at && c.at + 2 <= to && c.off % CHUNK == 0 && c.n <= CHUNK + OVERLAP)
    && (forall i, j :: 0 <= i < j < |checks| ==> checks[i].at + 2 <= checks[j].at && checks[i].off < checks[j].off)
  }

  ghost predicate Agree(text: LiveText, k: nat, p: nat, b: Byte) {
    p < |text(k)| && p < |text(k + 1)| && text(k)[p] == b && text(k + 1)[p] == b
  }

  /** `text` with the bytes at `rs` overwritten. */
  function Spliced(text: seq<Byte>, rs: nat, bytes: seq<Byte>): (r: seq<Byte>)
    requires rs + |bytes| <= |text|
    ensures |r| == |text|
    ensures forall p :: 0 <= p < |text| ==> r[p] == if rs <= p < rs + |bytes| then bytes[p - rs] else text[p]
  {
    text[..rs] + bytes + text[rs + |bytes|..]
  }

  /** The verdict on a run is the one its change of the baseline `now` deserves. */
  ghost predicate RunRight(code: Code, range: Range, now: seq<Byte>, bytes: seq<Byte>, r: Run) {
    var c := Change(code, range, now, r.rs, r.re, bytes);
    && c.WellFormed()
    && Answered(c, r.v, r.unknownTarget, r.breakpoint)
    && (r.v.Benign? ==> Explained(c))
  }

  /** The baseline when the run at `rs` is handled: what comes before it in the chunk has been taken over. */
  ghost function UpTo(before: seq<Byte>, cur: seq<Byte>, off: nat, rs: nat): (now: seq<Byte>)
    requires off <= rs <= off + |cur| <= |before|
    ensures |now| == |before|
  {
    before[..off] + cur[..rs - off] + before[rs..]
  }

  /** Every handled run of a chunk has the verdict it deserves at that moment. */
  ghost predicate Judged(code: Code, range: Range, before: seq<Byte>, cur: seq<Byte>, off: nat, runs: seq<Run>)
    requires off + |cur| <= |before|
  {
    forall i :: 0 <= i < |runs| ==> JudgedRun(code, range, before, cur, off, runs[i])
  }

  ghost predicate JudgedRun(code: Code, range: Range, before: seq<Byte>, cur: seq<Byte>, off: nat, r: Run)
    requires off + |cur| <= |before|
  {
    && off <= r.rs <= r.re <= off + |cur|
    && RunRight(code, range, UpTo(before, cur, off, r.rs), cur[r.rs - off..r.re - off], r)
  }

  class Region {
    const code: Code
    const range: Range
    const kernel: bool
    const copy: array<Byte>
    const tmp: array<Byte>
    const text: LiveText
    var clock: nat
    var handled: seq<Run>
    var reports: seq<Report>
    var dynamicPatches: nat
    var patchesDetected: nat

    ghost predicate Valid()
      reads this
    {
      && copy.Length == range.size && tmp.Length == CHUNK + OVERLAP && tmp != copy
      && (forall t: nat :: |text(t)| == range.size)
      && |handled| == dynamicPatches + patchesDetected && |reports| == patchesDetected
    }

    constructor (code: Code, range: Range, kernel: bool, text: LiveText, copy: array<Byte>)
      requires copy.Length == range.size && forall t: nat :: |text(t)| == range.size
      ensures Valid() && fresh(tmp) && this.code == code && this.range == range && this.text == text
      ensures this.copy == copy && this.kernel == kernel && handled == [] && reports == [] && clock == 0
    {
      this.code, this.range, this.kernel, this.text, this.copy := code, range, kernel, text, copy;
      this.tmp := new Byte[CHUNK + OVERLAP](_ => 0);
      clock, handled, reports, dynamicPatches, patchesDetected := 0, [], [], 0, 0;
    }

    /** Reports or counts the run, then takes its bytes into the baseline: one alert per modification. */
    method HandleRun(rs: nat, re: nat, bytes: seq<Byte>) returns (r: Run)
      requires Valid() && rs <= re <= range.size && |bytes| == re - rs
      modifies copy, this`handled, this`reports, this`dynamicPatches, this`patchesDetected
      ensures Valid() && handled == old(handled) + [r] && r.rs == rs && r.re == re
      ensures RunRight(code, range, old(copy[..]), bytes, r)
      ensures r.v.Benign? ==> dynamicPatches == old(dynamicPatches) + 1 && reports == old(reports)
      ensures !r.v.Benign? ==> dynamicPatches == old(dynamicPatches) && |reports| == |old(reports)| + 1 && old(reports) < reports
      ensures !r.v.Benign? ==>
                var flags := (if kernel then 1 else 0) + (if r.unknownTarget then 2 else 0) + (if r.breakpoint then 4 else 0);
                var level := if r.v.Critical? then 2 else 1;
                reports[|old(reports)|] == Report(0x22, level, range.base + rs, flags * 0x1_0000_0000 + (re - rs) % 0x1_0000_0000)
      ensures copy[..] == Spliced(old(copy[..]), rs, bytes)
    {
      hide Explained, Answered;
      var vi, _, _, _ := Classify(Change(code, range, copy[..], rs, re, bytes));
      r := Run(rs, re, vi.v, vi.unknownTarget, vi.breakpoint);
      if vi.v.Benign? {
        dynamicPatches := dynamicPatches + 1;
      } else {
        patchesDetected := patchesDetected + 1;
        var flags := (if kernel then KERNEL else 0) + (if vi.unknownTarget then UNKNOWN_TARGET else 0) +
                     (if vi.breakpoint then BREAKPOINT else 0);
        reports := reports + [Report(TEXT_PATCH, if vi.v.Critical? then LEVEL_CRITICAL else LEVEL_WATCH, range.base + rs,
                                     flags * 0x1_0000_0000 + (re - rs) % 0x1_0000_0000)];
      }
      handled := handled + [r];
      forall i | 0 <= i < |bytes| {
        copy[rs + i] := bytes[i];
      }
    }

    /** The first sample into tmp, then every byte the second disagrees on put back to the baseline's. */
    method Sample(off: nat, n: nat)
      requires Valid() && off + n <= range.size && n <= CHUNK + OVERLAP
      modifies tmp, this`clock
      ensures clock == old(clock) + 2
      ensures tmp[..n] == Settled(copy[..], text(old(clock)), text(old(clock) + 1), off, n)
    {
      var s1 := text(clock);
      forall i | 0 <= i < n {
        tmp[i] := s1[off + i];
      }
      var s2 := text(clock + 1);
      clock := clock + 2;
      for i := 0 to n
        modifies tmp
        invariant forall k :: 0 <= k < n ==> tmp[k] == if k < i && s1[off + k] != s2[off + k] then copy[off + k] else s1[off + k]
      {
        if tmp[i] != s2[off + i] {
          tmp[i] := copy[off + i];
        }
      }
    }

    /** The next merged run of differences at or after `i`; rs == n when there is none. */
    method NextRun(off: nat, n: nat, i: nat) returns (rs: nat, re: nat)
      requires Valid() && off + n <= range.size && n <= CHUNK + OVERLAP && i <= n
      ensures i <= rs <= n
      ensures forall k :: i <= k < rs ==> tmp[k] == copy[off + k]
      ensures rs < n ==> rs < re <= n && Merged(copy[..], tmp[..n], off, off + rs, off + re)
    {
      rs := i;
      while rs < n && tmp[rs] == copy[off + rs]
        invariant i <= rs <= n && forall k :: i <= k < rs ==> tmp[k] == copy[off + k]
      {
        rs := rs + 1;
      }
      re := rs;
      if rs < n {
        re := rs + 1;
        var gap, j := 0, rs + 1;
        ghost var before, cur := copy[..], tmp[..n];
        while j < n && gap <= MAX_GAP
          invariant rs < re <= j <= n && gap == j - re <= MAX_GAP + 1
          invariant cur[rs] != before[off + rs] && cur[re - 1] != before[off + re - 1]
          invariant forall p :: off + re <= p < off + j ==> cur[p - off] == before[p]
          invariant Dense(before, cur, off, off + rs, off + re)
        {
          if tmp[j] != copy[off + j] {
            DenseNext(before, cur, off, off + rs, off + re, off + j);
            re, gap := j + 1, 0;
          } else {
            gap := gap + 1;
          }
          j := j + 1;
        }
      }
    }

    /** Handles the run [rs, re) of the chunk in tmp and moves the frontier past it. */
    method TakeRun(off: nat, rs: nat, re: nat, ghost before: seq<Byte>, ghost cur: seq<Byte>, ghost h0: nat)
      requires Valid() && off + |cur| <= |before| == range.size && rs < re <= |cur| <= tmp.Length
      requires h0 <= |handled| && (forall k :: 0 <= k < |cur| ==> tmp[k] == cur[k])
      requires Patched(before, copy[..], cur, off, rs) && Found(before, cur, off, rs, handled[h0..])
      requires Merged(before, cur, off, off + rs, off + re) && Judged(code, range, before, cur, off, handled[h0..])
      modifies copy, this`handled, this`reports, this`dynamicPatches, this`patchesDetected
      ensures Valid() && |handled| == |old(handled)| + 1 && handled[..h0] == old(handled)[..h0]
      ensures Patched(before, copy[..], cur, off, re) && Found(before, cur, off, re, handled[h0..])
      ensures Judged(code, range, before, cur, off, handled[h0..])
    {
      hide Merged, Found, RunRight, Patched, Spliced, UpTo;
      ghost var now, runs := copy[..], handled[h0..];
      PatchedTail(before, now, cur, off, rs);
      assert tmp[rs..re] == cur[rs..re];
      PatchedIs(before, now, cur, off, rs);
      var r := HandleRun(off + rs, off + re, tmp[rs..re]);
      PatchedNext(before, now, copy[..], cur, off, rs, re);
      assert handled[h0..] == runs + [r];
      FoundNext(before, cur, off, rs, re, runs, r);
    }

    /** Samples [off, off + n) twice and handles the runs that belong to this chunk. */
    method ChunkCheck(off: nat, n: nat)
      requires Valid() && off + n <= range.size && n <= CHUNK + OVERLAP
      requires n == CHUNK + OVERLAP || off + n == range.size
      modifies copy, tmp, this`clock, this`handled, this`reports, this`dynamicPatches, this`patchesDetected
      ensures Valid() && clock == old(clock) + 2
      ensures |old(handled)| <= |handled| && handled[..|old(handled)|] == old(handled)
      ensures ChunkDone(old(copy[..]), copy[..], off,
                        Settled(old(copy[..]), text(old(clock)), text(old(clock) + 1), off, n), handled[|old(handled)|..])
      ensures Judged(code, range, old(copy[..]),
                     Settled(old(copy[..]), text(old(clock)), text(old(clock) + 1), off, n), off, handled[|old(handled)|..])
    {
      hide Merged, Found, ChunkDone, JudgedRun, Patched, Spliced;
      ghost var before := copy[..];
      ghost var h0 := |handled|;
      Sample(off, n);
      ghost var cur := tmp[..n];
      FoundNothing(before, cur, off);
      assert handled[h0..] == [];
      var i := 0;
      // everything before `f` is settled; from the first run left to the next chunk on, nothing is
      ghost var f := 0;
      while i < n
        modifies copy, this`handled, this`reports, this`dynamicPatches, this`patchesDetected
        invariant Valid() && f <= i <= n && (f == i || (CHUNK <= f && off + n < range.size))
        invariant tmp[..n] == cur && clock == old(clock) + 2 && |before| == range.size
        invariant h0 <= |handled| && handled[..h0] == old(handled)
        invariant Patched(before, copy[..], cur, off, f)
        invariant Found(before, cur, off, f, handled[h0..]) && Judged(code, range, before, cur, off, handled[h0..])
      {
        ghost var runs := handled[h0..];
        ghost var now := copy[..];
        var rs, re := NextRun(off, n, i);
        PatchedTail(before, now, cur, off, f);
        if f == i {
          PatchedMore(before, now, cur, off, f, rs);
          FoundMore(before, cur, off, f, rs, runs);
          f := rs;
        }
        if rs >= n {
          break;
        }
        MergedSame(now, before, cur, off, off + rs, off + re);
        if rs < CHUNK || off + n >= range.size {
          TakeRun(off, rs, re, before, cur, h0);
          f := re;
        }
        i := re;
      }
      FoundAll(before, copy[..], cur, off, f, handled[h0..]);
    }

    /** The live text did not change from sample `from` to the sample before `to`. */
    ghost predicate Still(from: nat, to: nat) {
      forall t: nat :: from <= t < to ==> text(t) == text(from)
    }

    /** One verification pass over the region; `checks` are the chunk checks it made. */
    method Verify() returns (ghost checks: seq<Check>)
      requires Valid()
      modifies copy, tmp, this`clock, this`handled, this`reports, this`dynamicPatches, this`patchesDetected
      ensures Valid() && |old(handled)| <= |handled| && handled[..|old(handled)|] == old(handled)
      // however the text moves, the baseline only takes a byte that both samples of one chunk check agreed on
      ensures InTurn(checks, old(clock), clock)
      ensures forall p: nat :: p < range.size ==> copy[p] == old(copy[p]) || FoundTwice(text, checks, p, copy[p])
      // and when it stands still, the pass finds every difference once and leaves none behind
      ensures Still(old(clock), clock) ==>
                copy[..] == text(old(clock)) && PassDone(old(copy[..]), text(old(clock)), handled[|old(handled)|..])
      // with the verdict each deserves
      ensures Still(old(clock), clock) ==> PassJudged(code, range, old(copy[..]), text(old(clock)), handled[|old(handled)|..])
      // so the pass after it handles nothing
      ensures Still(old(clock), clock) && old(copy[..]) == text(old(clock)) ==> handled == old(handled)
    {
      hide ChunkDone, PassTo, Settled, FoundTwice, PassRight;
      ghost var before, h0, t0 := copy[..], |handled|, clock;
      checks := [];
      var off := 0;
      PassStart(before, text(t0));
      assert handled[h0..] == [];
      while off < range.size
        invariant Valid() && old(clock) <= clock && h0 <= |handled| && handled[..h0] == old(handled)
        invariant Taken(text, checks, before, copy[..])
        invariant off % CHUNK == 0 && InTurn(checks, t0, clock) && forall c :: c in checks ==> c.off < off
        invariant Still(t0, clock) ==> PassTo(before, copy[..], text(t0), handled[h0..], off)
        invariant Still(t0, clock) ==> PassJudged(code, range, before, text(t0), handled[h0..])
        decreases range.size - off
      {
        var n := if CHUNK + OVERLAP <= range.size - off then CHUNK + OVERLAP else range.size - off;
        ghost var now := copy[..];
        var same := text(clock)[off..off + n] == copy[off..off + n];
        clock := clock + 1;
        if same {
          if Still(t0, clock) {
            PassSame(before, now, text(t0), handled[h0..], off, n);
          }
        } else {
          ghost var c := Check(clock, off, n);
          NextTurn(checks, c, t0, clock - 1, clock + 2);
          CheckOne(off, n, before, t0, h0, checks);
          checks := checks + [c];
        }
        off := off + CHUNK;
      }
      if Still(t0, clock) {
        PassEnd(before, copy[..], text(t0), handled[h0..], off);
        if before == text(t0) {
          SecondPassSilent(text(t0), handled[h0..]);
        }
      }
      TakenMeans(text, checks, before, copy[..]);
    }

    /** A chunk check inside a pass that began at sample `t0` with the baseline `before`. */
    method CheckOne(off: nat, n: nat, ghost before: seq<Byte>, ghost t0: nat, ghost h0: nat, ghost checks: seq<Check>)
      requires Valid() && |before| == range.size && t0 <= clock && h0 <= |handled|
      requires off + n <= range.size && n <= CHUNK + OVERLAP && (n == CHUNK + OVERLAP || off + n == range.size)
      requires Taken(text, checks, before, copy[..])
      requires Still(t0, clock) ==>
                 PassTo(before, copy[..], text(t0), handled[h0..], off) && PassJudged(code, range, before, text(t0), handled[h0..])
      modifies copy, tmp, this`clock, this`handled, this`reports, this`dynamicPatches, this`patchesDetected
      ensures Valid() && clock == old(clock) + 2 && h0 <= |handled| && handled[..h0] == old(handled)[..h0]
      ensures Taken(text, checks + [Check(old(clock), off, n)], before, copy[..])
      ensures Still(t0, clock) ==>
                PassTo(before, copy[..], text(t0), handled[h0..], off + CHUNK) && PassJudged(code, range, before, text(t0), handled[h0..])
    {
      hide ChunkDone, PassTo, Taken, Judged, PassJudged;
      ghost var now, runs, c0, k0 := copy[..], handled[h0..], clock, |handled|;
      ChunkCheck(off, n);
      TakenChunk(text, checks, c0, before, now, copy[..], off, n, handled[k0..]);
      assert handled[h0..] == runs + handled[k0..];
      if Still(t0, clock) {
        assert text(c0) == text(t0) && text(c0 + 1) == text(t0);
        PassChunk(before, now, copy[..], text(t0), runs, handled[k0..], off, n);
        JudgedChunk(code, range, before, now, copy[..], text(t0), runs, handled[k0..], off, n);
      }
    }
  }

  lemma NextTurn(checks: seq<Check>, c: Check, from: nat, to: nat, to': nat)
    requires InTurn(checks, from, to) && from <= to <= c.at && c.at + 2 <= to' && c.off % CHUNK == 0 && c.n <= CHUNK + OVERLAP
    requires forall d :: d in checks ==> d.off < c.off
    ensures InTurn(checks + [c], from, to')
  {
    forall i | 0 <= i < |checks|
      ensures checks[i].at + 2 <= c.at && checks[i].off < c.off
    {
      assert checks[i] in checks;
    }
  }

  /** Every byte of `now` is the baseline's or one that both samples of a chunk check agreed on. */
  ghost predicate Taken(text: LiveText, checks: seq<Check>, before: seq<Byte>, now: seq<Byte>) {
    |now| == |before| && forall p: nat :: p < |before| ==> now[p] == before[p] || FoundTwice(text, checks, p, now[p])
  }

  lemma TakenMeans(text: LiveText, checks: seq<Check>, before: seq<Byte>, now: seq<Byte>)
    requires Taken(text, checks, before, now)
    ensures |now| == |before| && forall p: nat :: p < |before| ==> now[p] == before[p] || FoundTwice(text, checks, p, now[p])
  {
  }

  lemma TakenChunk(text: LiveText, checks: seq<Check>, c0: nat, before: seq<Byte>, now: seq<Byte>, after: seq<Byte>,
                   off: nat, n: nat, runs: seq<Run>)
    requires Taken(text, checks, before, now) && off + n <= |now| == |after|
    requires |text(c0)| == |text(c0 + 1)| == |now|
    requires ChunkDone(now, after, off, Settled(now, text(c0), text(c0 + 1), off, n), runs)
    ensures Taken(text, checks + [Check(c0, off, n)], before, after)
  {
    hide ChunkDone;
    var cur, more := Settled(now, text(c0), text(c0 + 1), off, n), checks + [Check(c0, off, n)];
    ChunkFrame(now, after, off, cur, runs);
    forall p: nat | p < |before| && after[p] != before[p]
      ensures FoundTwice(text, more, p, after[p])
    {
      if after[p] != now[p] {
        assert Check(c0, off, n) in more && Agree(text, c0, p, after[p]);
      } else {
        var c :| c in checks && c.off <= p < c.off + c.n && Agree(text, c.at, p, now[p]);
        assert c in more;
      }
    }
  }

  lemma ChunkFrame(before: seq<Byte>, after: seq<Byte>, off: nat, cur: seq<Byte>, runs: seq<Run>)
    requires off + |cur| <= |before| == |after| && ChunkDone(before, after, off, cur, runs)
    ensures forall p: nat :: p < |after| && after[p] != before[p] ==> off <= p < off + |cur| && after[p] == cur[p - off]
  {
    EndWithin(before, after, off, cur, runs);
  }

  lemma EndWithin(before: seq<Byte>, after: seq<Byte>, off: nat, cur: seq<Byte>, runs: seq<Run>)
    requires off + |cur| <= |before| == |after| && ChunkDone(before, after, off, cur, runs)
    ensures EndOf(runs) <= off + |cur|
  {
    if runs != [] {
      assert Merged(before, cur, off, runs[|runs| - 1].rs, runs[|runs| - 1].re);
    }
  }

  /** A finished pass over text that stood still: each difference lies in exactly one of the handled runs. */
  ghost predicate PassDone(before: seq<Byte>, live: seq<Byte>, runs: seq<Run>) {
    && |before| == |live|
    && InOrder(runs)
    && (forall p: nat :: p < |before| && before[p] != live[p] ==> InRuns(runs, p))
    && (forall i :: 0 <= i < |runs| ==> runs[i].re <= |before| && before[runs[i].rs] != live[runs[i].rs])
  }

  /** Every handled run has the verdict it deserves against text already current before it and not yet from it on. */
  ghost predicate PassJudged(code: Code, range: Range, before: seq<Byte>, live: seq<Byte>, runs: seq<Run>) {
    |before| == |live| && forall i :: 0 <= i < |runs| ==> PassRight(code, range, before, live, runs[i])
  }

  ghost predicate PassRight(code: Code, range: Range, before: seq<Byte>, live: seq<Byte>, r: Run)
    requires |before| == |live|
  {
    r.rs <= r.re <= |live| && RunRight(code, range, live[..r.rs] + before[r.rs..], live[r.rs..r.re], r)
  }

  lemma JudgedChunk(code: Code, range: Range, before: seq<Byte>, now: seq<Byte>, after: seq<Byte>, live: seq<Byte>,
                    runs: seq<Run>, more: seq<Run>, off: nat, n: nat)
    requires PassTo(before, now, live, runs, off) && off + n <= |live| == |after| == |now| == |before|
    requires PassJudged(code, range, before, live, runs)
    requires ChunkDone(now, after, off, Settled(now, live, live, off, n), more)
    requires Judged(code, range, now, Settled(now, live, live, off, n), off, more)
    ensures PassJudged(code, range, before, live, runs + more)
  {
    hide PassTo, RunRight, Merged, Dense;
    var cur := Settled(now, live, live, off, n);
    assert forall p :: off <= p < off + n ==> cur[p - off] == live[p];
    forall i | 0 <= i < |more|
      ensures PassRight(code, range, before, live, more[i])
    {
      var r := more[i];
      assert JudgedRun(code, range, now, cur, off, r);
      RunIsNew(before, now, live, runs, off, cur, r.rs, r.re);
      UpToIs(before, now, live, runs, off, n, cur, r.rs);
      assert cur[r.rs - off..r.re - off] == live[r.rs..r.re];
    }
  }

  lemma UpToIs(before: seq<Byte>, now: seq<Byte>, live: seq<Byte>, runs: seq<Run>, off: nat, n: nat, cur: seq<Byte>, rs: nat)
    requires PassTo(before, now, live, runs, off) && off + n <= |live| && |cur| == n && off <= rs <= off + n
    requires EndOf(runs) <= rs && forall p :: off <= p < off + n ==> cur[p - off] == live[p]
    ensures UpTo(now, cur, off, rs) == live[..rs] + before[rs..]
  {
  }

  /** A pass over text that matches the baseline handles nothing. */
  lemma SecondPassSilent(live: seq<Byte>, runs: seq<Run>)
    requires PassDone(live, live, runs)
    ensures runs == []
  {
    if runs != [] {
      RunMeansDifference(live, live, runs);
    }
  }

  lemma RunMeansDifference(before: seq<Byte>, live: seq<Byte>, runs: seq<Run>)
    requires PassDone(before, live, runs) && runs != []
    ensures before != live
  {
    assert before[runs[0].rs] != live[runs[0].rs];
  }

  /** A pass that has dealt with everything before `off`, and with what its last run took beyond it. */
  ghost predicate PassTo(before: seq<Byte>, now: seq<Byte>, live: seq<Byte>, runs: seq<Run>, off: nat) {
    && |before| == |now| == |live|
    && InOrder(runs) && EndOf(runs) <= |before|
    && (forall p: nat :: p < |before| && (p < off || p < EndOf(runs)) ==> now[p] == live[p])
    && (forall p: nat :: p < |before| && off <= p && EndOf(runs) <= p ==> now[p] == before[p])
    && (forall p: nat :: p < |before| && (p < off || p < EndOf(runs)) && before[p] != live[p] ==> InRuns(runs, p))
    && (forall i :: 0 <= i < |runs| ==> runs[i].re <= |before| && before[runs[i].rs] != live[runs[i].rs])
  }

  lemma PassStart(before: seq<Byte>, live: seq<Byte>)
    requires |before| == |live|
    ensures PassTo(before, before, live, [], 0)
  {
  }

  lemma PassEnd(before: seq<Byte>, now: seq<Byte>, live: seq<Byte>, runs: seq<Run>, off: nat)
    requires PassTo(before, now, live, runs, off) && |before| <= off
    ensures now == live && PassDone(before, live, runs)
  {
  }

  lemma PassSame(before: seq<Byte>, now: seq<Byte>, live: seq<Byte>, runs: seq<Run>, off: nat, n: nat)
    requires PassTo(before, now, live, runs, off) && off + n <= |live| && live[off..off + n] == now[off..off + n]
    requires n == CHUNK + OVERLAP || off + n == |live|
    ensures PassTo(before, now, live, runs, off + CHUNK)
  {
    forall p: nat | p < |live| && off <= p < off + CHUNK
      ensures now[p] == live[p]
    {
      assert live[off..off + n][p - off] == now[off..off + n][p - off];
    }
  }

  lemma PassChunk(before: seq<Byte>, now: seq<Byte>, after: seq<Byte>, live: seq<Byte>, runs: seq<Run>, more: seq<Run>,
                  off: nat, n: nat)
    requires PassTo(before, now, live, runs, off) && off + n <= |live| == |after| == |now| == |before|
    requires n == CHUNK + OVERLAP || off + n == |live|
    requires ChunkDone(now, after, off, Settled(now, live, live, off, n), more)
    ensures PassTo(before, after, live, runs + more, off + CHUNK)
  {
    hide Merged, PassTo;
    var cur := Settled(now, live, live, off, n);
    assert forall p :: off <= p < off + n ==> cur[p - off] == live[p];
    EndWithin(now, after, off, cur, more);
    PassOrder(before, now, live, runs, more, off, cur);
    ChunkBytes(now, after, live, off, n, cur, more);
    forall p: nat
      ensures InRuns(runs + more, p) <==> InRuns(runs, p) || InRuns(more, p)
    {
      InRunsConcat(runs, more, p);
    }
    PassBytes(before, now, after, live, runs, more, off, n);
  }

  lemma PassBytes(before: seq<Byte>, now: seq<Byte>, after: seq<Byte>, live: seq<Byte>, runs: seq<Run>, more: seq<Run>,
                  off: nat, n: nat)
    requires PassTo(before, now, live, runs, off) && off + n <= |live| == |after|
    requires InOrder(runs + more)
    requires forall i :: 0 <= i < |runs + more| ==>
               (runs + more)[i].re <= |before| && before[(runs + more)[i].rs] != live[(runs + more)[i].rs]
    requires forall i :: 0 <= i < |more| ==> EndOf(runs) <= more[i].rs
    requires InOrder(more) && EndOf(more) <= off + n
    requires EndOf(runs + more) == if more == [] then EndOf(runs) else EndOf(more)
    requires forall p: nat :: p < |live| && off <= p && (p < off + CHUNK || p < EndOf(more)) ==> after[p] == live[p]
    requires forall p: nat :: p < |live| && off <= p && (p < off + CHUNK || p < EndOf(more)) && now[p] != live[p] ==> InRuns(more, p)
    requires forall p: nat :: p < |live| && (p < off || EndOf(more) <= p) ==> after[p] == now[p]
    requires forall p: nat :: InRuns(runs + more, p) <==> InRuns(runs, p) || InRuns(more, p)
    ensures PassTo(before, after, live, runs + more, off + CHUNK)
  {
    assert more != [] ==> EndOf(runs) <= EndOf(more);
  }

  /** The runs of the next chunk begin where something still differs, so after all the earlier ones. */
  lemma PassOrder(before: seq<Byte>, now: seq<Byte>, live: seq<Byte>, runs: seq<Run>, more: seq<Run>, off: nat, cur: seq<Byte>)
    requires PassTo(before, now, live, runs, off) && off + |cur| <= |live| && InOrder(more)
    requires forall p :: off <= p < off + |cur| ==> cur[p - off] == live[p]
    requires forall i :: 0 <= i < |more| ==> Merged(now, cur, off, more[i].rs, more[i].re)
    ensures InOrder(runs + more)
    ensures forall i :: 0 <= i < |more| ==> EndOf(runs) <= more[i].rs
    ensures forall i :: 0 <= i < |runs + more| ==>
              (runs + more)[i].re <= |before| && before[(runs + more)[i].rs] != live[(runs + more)[i].rs]
    ensures EndOf(runs + more) == if more == [] then EndOf(runs) else EndOf(more)
  {
    hide PassTo, Merged;
    PassRuns(before, now, live, runs, off);
    forall i | 0 <= i < |more|
      ensures EndOf(runs) <= more[i].rs && more[i].re <= |before| && before[more[i].rs] != live[more[i].rs]
    {
      RunIsNew(before, now, live, runs, off, cur, more[i].rs, more[i].re);
    }
    OrderConcat(runs, more);
  }

  /** A run of the next chunk begins where something still differs. */
  lemma RunIsNew(before: seq<Byte>, now: seq<Byte>, live: seq<Byte>, runs: seq<Run>, off: nat, cur: seq<Byte>, rs: nat, re: nat)
    requires PassTo(before, now, live, runs, off) && off + |cur| <= |live| && Merged(now, cur, off, rs, re)
    requires forall p :: off <= p < off + |cur| ==> cur[p - off] == live[p]
    ensures EndOf(runs) <= rs && re <= |before| && before[rs] != live[rs]
  {
    hide Dense;
    assert now[rs] != live[rs];
  }

  lemma PassRuns(before: seq<Byte>, now: seq<Byte>, live: seq<Byte>, runs: seq<Run>, off: nat)
    requires PassTo(before, now, live, runs, off)
    ensures InOrder(runs) && |before| == |live|
    ensures forall i :: 0 <= i < |runs| ==> runs[i].re <= |before| && before[runs[i].rs] != live[runs[i].rs]
  {
  }

  lemma OrderConcat(runs: seq<Run>, more: seq<Run>)
    requires InOrder(runs) && InOrder(more) && forall i :: 0 <= i < |more| ==> EndOf(runs) <= more[i].rs
    ensures InOrder(runs + more) && EndOf(runs + more) == if more == [] then EndOf(runs) else EndOf(more)
  {
    forall i | 0 <= i < |runs|
      ensures runs[i].re <= EndOf(runs)
    {
      if i < |runs| - 1 {
        assert runs[i].re <= runs[|runs| - 1].rs;
      }
    }
  }

  /** After a chunk check of text that stood still, the chunk and whatever a run took beyond it match the text. */
  lemma ChunkBytes(now: seq<Byte>, after: seq<Byte>, live: seq<Byte>, off: nat, n: nat, cur: seq<Byte>, more: seq<Run>)
    requires |now| == |after| == |live| && off + n <= |live| && |cur| == n && (n == CHUNK + OVERLAP || off + n == |live|)
    requires forall p :: off <= p < off + n ==> cur[p - off] == live[p]
    requires ChunkDone(now, after, off, cur, more)
    ensures forall p: nat :: p < |live| && off <= p && (p < off + CHUNK || p < EndOf(more)) ==> after[p] == live[p]
    ensures forall p: nat :: p < |live| && off <= p && (p < off + CHUNK || p < EndOf(more)) && now[p] != live[p] ==> InRuns(more, p)
    ensures forall p: nat :: p < |live| && (p < off || EndOf(more) <= p) ==> after[p] == now[p]
  {
    hide Merged;
    EndWithin(now, after, off, cur, more);
    forall p: nat | p < |live| && off <= p < off + CHUNK
      ensures after[p] == live[p] && (now[p] != live[p] ==> InRuns(more, p))
    {
      assert p < off + n;
      if now[p] != live[p] {
        assert cur[p - off] != now[p];
        BeforeEnd(more, p);
      }
    }
  }

  /** The handled runs of a chunk account for every difference before `f`. */
  ghost predicate Found(before: seq<Byte>, cur: seq<Byte>, off: nat, f: nat, runs: seq<Run>)
    requires off + |cur| <= |before| && f <= |cur|
  {
    && InOrder(runs)
    && (forall i :: 0 <= i < |runs| ==> Merged(before, cur, off, runs[i].rs, runs[i].re))
    && EndOf(runs) <= off + f
    && (forall p: nat :: off <= p < off + f && cur[p - off] != before[p] ==> InRuns(runs, p))
  }

  lemma FoundNext(before: seq<Byte>, cur: seq<Byte>, off: nat, f: nat, f': nat, runs: seq<Run>, r: Run)
    requires off + |cur| <= |before| && f < f' <= |cur| && Found(before, cur, off, f, runs)
    requires Merged(before, cur, off, off + f, off + f') && r.rs == off + f && r.re == off + f'
    ensures Found(before, cur, off, f', runs + [r])
  {
    hide Merged;
    InRunsAppend(runs, r);
    forall p: nat | off <= p < off + f' && cur[p - off] != before[p]
      ensures InRuns(runs + [r], p)
    {
      if p < off + f {
        assert InRuns(runs, p);
      }
    }
  }

  lemma FoundNothing(before: seq<Byte>, cur: seq<Byte>, off: nat)
    requires off + |cur| <= |before|
    ensures Found(before, cur, off, 0, []) && Patched(before, before, cur, off, 0)
  {
  }

  /** Bytes without a difference move the frontier but bring no run. */
  lemma FoundMore(before: seq<Byte>, cur: seq<Byte>, off: nat, f: nat, f': nat, runs: seq<Run>)
    requires off + |cur| <= |before| && f <= f' <= |cur| && Found(before, cur, off, f, runs)
    requires forall p :: off + f <= p < off + f' ==> cur[p - off] == before[p]
    ensures Found(before, cur, off, f', runs)
  {
    hide Merged;
  }

  lemma FoundAll(before: seq<Byte>, after: seq<Byte>, cur: seq<Byte>, off: nat, f: nat, runs: seq<Run>)
    requires off + |cur| <= |before| == |after| && f <= |cur| && Found(before, cur, off, f, runs)
    requires f == |cur| || (CHUNK <= f && off + |cur| < |before|)
    requires Patched(before, after, cur, off, f)
    ensures ChunkDone(before, after, off, cur, runs)
  {
    hide Merged;
    forall p: nat | off <= p < off + f && EndOf(runs) <= p
      ensures cur[p - off] == before[p]
    {
      if InRuns(runs, p) {
        BeforeEnd(runs, p);
      }
    }
  }

  lemma BeforeEnd(runs: seq<Run>, p: nat)
    requires InOrder(runs) && InRuns(runs, p)
    ensures p < EndOf(runs)
  {
    var i :| 0 <= i < |runs| && runs[i].rs <= p < runs[i].re;
    if i < |runs| - 1 {
      assert runs[i].re <= runs[|runs| - 1].rs;
    }
  }

  /** The baseline with the first `f` bytes of the chunk taken over. */
  ghost predicate Patched(before: seq<Byte>, now: seq<Byte>, cur: seq<Byte>, off: nat, f: nat)
    requires off + |cur| <= |before| && f <= |cur|
  {
    |now| == |before| &&
    forall p :: 0 <= p < |before| ==> now[p] == if off <= p < off + f then cur[p - off] else before[p]
  }

  lemma PatchedIs(before: seq<Byte>, now: seq<Byte>, cur: seq<Byte>, off: nat, f: nat)
    requires off + |cur| <= |before| && f <= |cur| && Patched(before, now, cur, off, f)
    ensures now == UpTo(before, cur, off, off + f)
  {
  }

  lemma PatchedMore(before: seq<Byte>, now: seq<Byte>, cur: seq<Byte>, off: nat, f: nat, f': nat)
    requires off + |cur| <= |before| && f <= f' <= |cur| && Patched(before, now, cur, off, f)
    requires forall k :: f <= k < f' ==> cur[k] == now[off + k]
    ensures Patched(before, now, cur, off, f')
    ensures forall p :: off + f <= p < off + f' ==> cur[p - off] == before[p]
  {
  }

  lemma PatchedNext(before: seq<Byte>, now: seq<Byte>, now': seq<Byte>, cur: seq<Byte>, off: nat, f: nat, f': nat)
    requires off + |cur| <= |before| && f <= f' <= |cur| && Patched(before, now, cur, off, f)
    requires |now| >= off + f' && now' == Spliced(now, off + f, cur[f..f'])
    ensures Patched(before, now', cur, off, f')
  {
  }

  lemma PatchedTail(before: seq<Byte>, now: seq<Byte>, cur: seq<Byte>, off: nat, f: nat)
    requires off + |cur| <= |before| && f <= |cur| && Patched(before, now, cur, off, f)
    ensures |now| == |before| && forall p :: off + f <= p < |now| ==> now[p] == before[p]
  {
  }
}

/**
 The lock-free reader of the alert ring.

 A `Trace` gives the system as the reader finds it at each of its loads: between two loads the writer may have
 performed any number of stores.  A property proved for every honest trace therefore holds in every interleaving.
 */
module RingReader {
  import opened AlertRing

  type Trace = nat -> Sys

  ghost predicate Honest(mac: Mac, trace: Trace) {
    && IdealMac(mac)
    && Reaches(mac, Boot(), trace(0))
    && forall t: nat :: Reaches(mac, trace(t), trace(t + 1))
  }

  lemma {:induction false} TraceInv(mac: Mac, trace: Trace, t: nat)
    requires Honest(mac, trace)
    ensures Inv(mac, trace(t))
  {
    if t == 0 {
      BootInv(mac);
      ReachesInv(mac, Boot(), trace(0));
    } else {
      TraceInv(mac, trace, t - 1);
      assert Reaches(mac, trace(t - 1), trace(t - 1 + 1));
      ReachesInv(mac, trace(t - 1), trace(t));
    }
  }

  lemma {:induction false} TraceBefore(mac: Mac, trace: Trace, t: nat, t': nat)
    requires Honest(mac, trace) && t <= t'
    ensures Before(trace(t), trace(t'))
    decreases t'
  {
    if t < t' {
      TraceBefore(mac, trace, t, t' - 1);
      TraceInv(mac, trace, t' - 1);
      assert Reaches(mac, trace(t' - 1), trace(t' - 1 + 1));
      ReachesInv(mac, trace(t' - 1), trace(t'));
    }
  }

  datatype SlotResult = SlotOk | SlotRetry | SlotBad

  /** A copied cell comes from notification `c` or from a later one in the same slot (or is the zero magic). */
  ghost predicate CopiedFrom(s: Sys, c: nat, k: nat, v: nat) {
    || (k == 0 && v == 0)
    || exists n: nat :: c <= n < |s.history| && n % SLOTS == c % SLOTS && |s.history[n]| == CELLS && k < CELLS && s.history[n][k] == v
  }

  lemma CopiedLater(s: Sys, s': Sys, c: nat, k: nat, v: nat)
    requires Before(s, s') && CopiedFrom(s, c, k, v)
    ensures CopiedFrom(s', c, k, v)
  {
  }

  ghost predicate Authentic(mac: Mac, note: seq<nat>) {
    |note| == CELLS && note[MAC_AT..] == mac(note[..MAC_AT])
  }

  /** `note` is, cell for cell, notification number `n`. */
  ghost predicate IsNumber(s: Sys, n: int, note: seq<nat>) {
    0 <= n < |s.history| && note == s.history[n]
  }

  /** `note` is a notification published at or after number `c` under the same 32-bit sequence number. */
  ghost predicate Republished(s: Sys, c: nat, note: seq<nat>) {
    exists n: nat :: c <= n && n % WRAP == c % WRAP && IsNumber(s, n, note)
  }

  /** The notification a copied tag word comes from. */
  lemma WordSource(mac: Mac, s: Sys, c: nat, out: seq<nat>, k: nat) returns (n: nat)
    requires FourWords(mac) && Inv(mac, s) && |out| == CELLS && MAC_AT <= k < CELLS && CopiedFrom(s, c, k, out[k])
    ensures c <= n < |s.history| && n % SLOTS == c % SLOTS && |s.history[n]| == CELLS
    ensures s.history[n][MAC_AT..] == mac(s.history[n][..MAC_AT]) && mac(s.history[n][..MAC_AT])[k - MAC_AT] == out[k]
  {
    n :| c <= n < |s.history| && n % SLOTS == c % SLOTS && |s.history[n]| == CELLS && s.history[n][k] == out[k];
    assert Genuine(mac, s.history[n], n);
    assert s.history[n][MAC_AT..][k - MAC_AT] == s.history[n][k];
  }

  /** Any copy whose cells all come from the slot and whose tag verifies is one whole notification. */
  lemma AuthenticIsWhole(mac: Mac, s: Sys, c: nat, out: seq<nat>) returns (n: nat)
    requires IdealMac(mac) && Inv(mac, s) && |out| == CELLS && Authentic(mac, out)
    requires forall k: nat :: k < CELLS ==> CopiedFrom(s, c, k, out[k])
    ensures c <= n < |s.history| && n % SLOTS == c % SLOTS && out == s.history[n]
  {
    hide Inv, CopiedFrom;
    var n0 := WordSource(mac, s, c, out, 7);
    var n1 := WordSource(mac, s, c, out, 8);
    var n2 := WordSource(mac, s, c, out, 9);
    var n3 := WordSource(mac, s, c, out, 10);
    var h, m := s.history, out[..MAC_AT];
    assert out[MAC_AT..][0] == out[7] && out[MAC_AT..][1] == out[8] && out[MAC_AT..][2] == out[9] && out[MAC_AT..][3] == out[10];
    assert Spliced(mac, m, h[n0][..MAC_AT], h[n1][..MAC_AT], h[n2][..MAC_AT], h[n3][..MAC_AT]);
    n := if m == h[n0][..MAC_AT] then n0 else if m == h[n1][..MAC_AT] then n1 else if m == h[n2][..MAC_AT] then n2 else n3;
    assert out == out[..MAC_AT] + out[MAC_AT..] && h[n] == h[n][..MAC_AT] + h[n][MAC_AT..];
  }

  /** Cell `k` of slot `i` was seen to hold `v` at some load from `t` to `t'`. */
  ghost predicate Seen(trace: Trace, t: nat, t': nat, i: nat, k: nat, v: nat) {
    exists u: nat :: t <= u <= t' && CopiedAt(trace, u, i, k, v)
  }

  ghost predicate CopiedAt(trace: Trace, u: nat, i: nat, k: nat, v: nat) {
    var slots := trace(u).page.slots;
    i < |slots| && k < |slots[i]| && slots[i][k] == v
  }

  /** What is known of a copied cell at load `t'` of a copy that began at load `t`. */
  ghost predicate Tracked(trace: Trace, t: nat, t': nat, c: nat, k: nat, v: nat) {
    CopiedFrom(trace(t'), c, k, v) && Seen(trace, t, t', c % SLOTS, k, v)
  }

  lemma TrackedLater(mac: Mac, trace: Trace, t: nat, t': nat, c: nat, k: nat, v: nat)
    requires Honest(mac, trace) && Tracked(trace, t, t', c, k, v)
    ensures Tracked(trace, t, t' + 1, c, k, v)
  {
    TraceBefore(mac, trace, t', t' + 1);
    CopiedLater(trace(t'), trace(t' + 1), c, k, v);
  }

  lemma TrackedNow(mac: Mac, trace: Trace, t: nat, t': nat, c: nat, k: nat)
    requires Honest(mac, trace) && t <= t' && c < Published(trace(t)) && k < CELLS
    ensures |trace(t').page.slots| == SLOTS && |trace(t').page.slots[c % SLOTS]| == CELLS
    ensures Tracked(trace, t, t', c, k, trace(t').page.slots[c % SLOTS][k])
  {
    TraceInv(mac, trace, t');
    TraceBefore(mac, trace, t, t');
    CellSource(mac, trace(t'), c, k);
    var n: nat := SourceOf(trace(t'), c, k);
    assert c <= n < |trace(t').history|;
    assert CopiedAt(trace, t', c % SLOTS, k, trace(t').page.slots[c % SLOTS][k]);
  }

  /** Copies the eleven cells one load at a time, in any order. */
  method CopyCells(mac: Mac, trace: Trace, t: nat, ghost c: nat, i: nat) returns (out: seq<nat>, t': nat)
    requires Honest(mac, trace) && c < Published(trace(t)) && i == c % SLOTS
    ensures t <= t' && |out| == CELLS
    ensures forall k: nat :: k < CELLS ==> Tracked(trace, t, t', c, k, out[k])
  {
    hide Tracked, Inv, Honest, Published;
    t', out := t, seq(CELLS, _ => 0);
    var left: set<nat> := {0, 1, 2, 3, 4, 5, 6, 7, 8, 9, 10};
    while left != {}
      invariant t <= t' && |out| == CELLS && forall k :: k in left ==> k < CELLS
      invariant forall k: nat :: k < CELLS && k !in left ==> Tracked(trace, t, t', c, k, out[k])
    {
      var k :| k in left;
      forall j: nat | j < CELLS && j !in left
        ensures Tracked(trace, t, t' + 1, c, j, out[j])
      {
        TrackedLater(mac, trace, t, t', c, j, out[j]);
      }
      t' := t' + 1;
      TrackedNow(mac, trace, t, t', c, k);
      out := out[k := trace(t').page.slots[i][k]];
      left := left - {k};
    }
  }

  /**
   Reads the slot of notification `c`, whose sequence number is `cursor`; `t` is the moment of the first load
   and `t'` that of the last.  The cells are copied in any order.
   */
  method ReadSlot(mac: Mac, trace: Trace, t: nat, cursor: nat, ghost c: nat)
    returns (res: SlotResult, out: seq<nat>, t': nat)
    requires Honest(mac, trace) && cursor == c % WRAP && c < Published(trace(t))
    ensures t <= t' && |out| == CELLS
    ensures res.SlotOk? ==> out[1] == cursor
    // unreadable or re-sequenced only because the slot was already being reused
    ensures !res.SlotOk? ==> c + SLOTS <= Published(trace(t'))
    // whatever was stored meanwhile, a verified copy is one published notification with that sequence number
    ensures res.SlotOk? && Authentic(mac, out) ==> Republished(trace(t'), c, out)
    // with no complete rewrite between the two magic loads the copy is untorn
    ensures !res.SlotRetry? && LatestIn(trace(t), c) == LatestIn(trace(t'), c) ==>
              IsNumber(trace(t'), LatestIn(trace(t), c), out)
  {
    var i := cursor % SLOTS;
    SlotOf(c);
    var m1 := LoadMagic(mac, trace, t, t, c, i);
    if m1 != MAGIC {
      return SlotRetry, seq(CELLS, _ => 0), t;
    }
    out, t' := CopyCells(mac, trace, t, c, i);
    TrackedAllLater(mac, trace, t, t', c, out);
    t' := t' + 1;
    var m2 := LoadMagic(mac, trace, t, t', c, i);
    if m2 != MAGIC {
      return SlotRetry, out, t';
    }
    res := if out[1] == cursor then SlotOk else SlotBad;
    CopyMeaning(mac, trace, t, t', c, out);
  }

  method LoadMagic(mac: Mac, trace: Trace, ghost t: nat, now: nat, ghost c: nat, i: nat) returns (m: nat)
    requires Honest(mac, trace) && t <= now && c < Published(trace(t)) && i == c % SLOTS
    ensures CopiedAt(trace, now, i, 0, m)
    ensures m != MAGIC ==> c + SLOTS <= Published(trace(now))
  {
    TraceInv(mac, trace, now);
    TraceBefore(mac, trace, t, now);
    m := trace(now).page.slots[i][0];
    if m != MAGIC {
      InvalidMeansLapped(mac, trace(now), c);
    }
  }

  lemma TrackedAllLater(mac: Mac, trace: Trace, t: nat, t': nat, c: nat, out: seq<nat>)
    requires Honest(mac, trace) && |out| == CELLS
    requires forall k: nat :: k < CELLS ==> Tracked(trace, t, t', c, k, out[k])
    ensures forall k: nat :: k < CELLS ==> Tracked(trace, t, t' + 1, c, k, out[k])
  {
    forall k: nat | k < CELLS
      ensures Tracked(trace, t, t' + 1, c, k, out[k])
    {
      TrackedLater(mac, trace, t, t', c, k, out[k]);
    }
  }

  /** What a finished copy can be, once the second magic load has found the slot valid. */
  lemma CopyMeaning(mac: Mac, trace: Trace, t: nat, t': nat, c: nat, out: seq<nat>)
    requires Honest(mac, trace) && t <= t' && c < Published(trace(t)) && |out| == CELLS
    requires CopiedAt(trace, t', c % SLOTS, 0, MAGIC)
    requires forall k: nat :: k < CELLS ==> Tracked(trace, t, t', c, k, out[k])
    ensures out[1] != c % WRAP ==> c + SLOTS <= Published(trace(t'))
    ensures out[1] == c % WRAP && Authentic(mac, out) ==> Republished(trace(t'), c, out)
    ensures LatestIn(trace(t), c) == LatestIn(trace(t'), c) ==> IsNumber(trace(t'), LatestIn(trace(t), c), out)
  {
    TraceInv(mac, trace, t');
    assert CopiedFrom(trace(t'), c, 1, out[1]) by { assert Tracked(trace, t, t', c, 1, out[1]); }
    if out[1] != c % WRAP {
      SkippedAhead(mac, trace(t'), c, out[1]);
    } else if Authentic(mac, out) {
      var n := AuthenticIsWhole(mac, trace(t'), c, out);
      assert Genuine(mac, trace(t').history[n], n);
      assert IsNumber(trace(t'), n, out);
    }
    if LatestIn(trace(t), c) == LatestIn(trace(t'), c) {
      Untorn(mac, trace, t, t', c, out);
    }
  }

  lemma SkippedAhead(mac: Mac, s: Sys, c: nat, v: nat)
    requires Inv(mac, s) && CopiedFrom(s, c, 1, v) && v != c % WRAP
    ensures c + SLOTS <= Published(s)
  {
    var n: nat :| c <= n < |s.history| && n % SLOTS == c % SLOTS && |s.history[n]| == CELLS && s.history[n][1] == v;
    assert Genuine(mac, s.history[n], n);
    assert n != c;
    SameSlot(n, c);
  }

  lemma Untorn(mac: Mac, trace: Trace, t: nat, t': nat, c: nat, out: seq<nat>)
    requires Honest(mac, trace) && t <= t' && c < Published(trace(t)) && |out| == CELLS
    requires Inv(mac, trace(t')) && trace(t').page.slots[c % SLOTS][0] == MAGIC
    requires LatestIn(trace(t), c) == LatestIn(trace(t'), c)
    requires forall k: nat :: k < CELLS ==> Seen(trace, t, t', c % SLOTS, k, out[k])
    ensures IsNumber(trace(t'), LatestIn(trace(t), c), out)
  {
    var n := LatestIn(trace(t), c);
    TraceBefore(mac, trace, t, t');
    ValidMeansWhole(mac, trace(t'), c);
    var h := trace(t').history[n];
    assert |h| == CELLS;
    forall k: nat | k < CELLS
      ensures out[k] == h[k]
    {
      var u: nat :| t <= u <= t' && CopiedAt(trace, u, c % SLOTS, k, out[k]);
      UntornCell(mac, trace, t, u, t', c);
    }
  }

  lemma UntornCell(mac: Mac, trace: Trace, t: nat, u: nat, t': nat, c: nat)
    requires Honest(mac, trace) && t <= u <= t' && c < Published(trace(t))
    requires Inv(mac, trace(t')) && trace(t').page.slots[c % SLOTS][0] == MAGIC
    requires LatestIn(trace(t), c) == LatestIn(trace(t'), c)
    ensures 0 <= LatestIn(trace(t), c) < |trace(t').history|
    ensures |trace(u).page.slots| == SLOTS
    ensures trace(u).page.slots[c % SLOTS] == trace(t').history[LatestIn(trace(t), c)]
  {
    TraceInv(mac, trace, t);
    TraceInv(mac, trace, u);
    TraceBefore(mac, trace, t, u);
    TraceBefore(mac, trace, u, t');
    ValidatedGrows(mac, trace(t), trace(u));
    ValidatedGrows(mac, trace(u), trace(t'));
    LatestGrows(trace(t), trace(u), c);
    LatestGrows(trace(u), trace(t'), c);
    NoRewriteBetween(mac, trace(u), trace(t'), c);
    ValidMeansWhole(mac, trace(u), c);
  }

  lemma ValidatedGrows(mac: Mac, s: Sys, s': Sys)
    requires Inv(mac, s) && Inv(mac, s') && Before(s, s')
    ensures Validated(s) <= Validated(s')
  {
  }
}

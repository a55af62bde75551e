/**
 The shared page of the alert ring and its only writer, as a machine whose steps are single stores.

 A notification occupies eleven cells, the units a reader can observe separately: magic, sequence, type,
 level, timestamp, two parameters and the HMAC as four words.  Notification number N (counted from 0, never
 wrapping) lives in slot N % 16 and carries N % 2^32 as its sequence number.
 */
module AlertRing {

  const SLOTS := 16
  const WRAP := 0x1_0000_0000
  const MAGIC := 0xDEAD_C0DE
  const CELLS := 11
  const MAC_AT := 7

  /** HMAC under the per-boot key: from the authenticated cells to the four words of the tag. */
  type Mac = seq<nat> -> seq<nat>

  /** A tag has four words. */
  ghost predicate FourWords(mac: Mac) {
    forall m :: |mac(m)| == CELLS - MAC_AT
  }

  /**
   The MAC is ideal: a tag put together word by word from tags of other messages is a tag of one of those messages
   or of none.  With the four messages equal this is injectivity.
   */
  ghost predicate IdealMac(mac: Mac) {
    && FourWords(mac)
    && (forall m, m0, m1, m2, m3 :: Spliced(mac, m, m0, m1, m2, m3) ==> m == m0 || m == m1 || m == m2 || m == m3)
  }

  /** Word k of the tag of m is word k of the tag of the k-th of the others. */
  ghost predicate Spliced(mac: Mac, m: seq<nat>, m0: seq<nat>, m1: seq<nat>, m2: seq<nat>, m3: seq<nat>) {
    && |mac(m)| == |mac(m0)| == |mac(m1)| == |mac(m2)| == |mac(m3)| == CELLS - MAC_AT
    && mac(m)[0] == mac(m0)[0] && mac(m)[1] == mac(m1)[1] && mac(m)[2] == mac(m2)[2] && mac(m)[3] == mac(m3)[3]
  }

  datatype Alert = Alert(kind: nat, level: nat, timestamp: nat, param1: nat, param2: nat)

  datatype Page = Page(writeIndex: nat, driverNonce: nat, slots: seq<seq<nat>>)

  /** Where the lock holder is: `next` is the number of the store it will perform next. */
  datatype Writer =
    | Idle
    | Hashing(alert: Alert, sequence: nat)
    | Storing(cells: seq<nat>, next: nat)

  /** Auxiliary: every notification whose stores have begun, in order, and the alert each was submitted as. */
  datatype Sys = Sys(page: Page, writer: Writer, history: seq<seq<nat>>, alerts: seq<Alert>)

  datatype Step = Reserve(alert: Alert) | HashFails | HashDone | Store

  function Encode(mac: Mac, a: Alert, sequence: nat): seq<nat> {
    var body := [MAGIC, sequence, a.kind, a.level, a.timestamp, a.param1, a.param2];
    body + mac(body)
  }

  predicate Enabled(s: Sys, step: Step) {
    match step
    case Reserve(_) => s.writer.Idle?
    case HashFails => s.writer.Hashing?
    case HashDone => s.writer.Hashing?
    case Store => s.writer.Storing?
  }

  /** Store one cell of the slot that belongs to `sequence`. */
  function Poke(p: Page, sequence: nat, k: nat, value: nat): Page {
    var i := sequence % SLOTS;
    if i < |p.slots| && k < |p.slots[i]| then
      var cells: seq<nat> := p.slots[i][k := value];
      p.(slots := p.slots[i := cells])
    else p
  }

  /** Store number `next` of a publication: invalidate, the ten fields, validate, count. */
  function StoreStep(s: Sys): Sys
    requires s.writer.Storing?
  {
    var c, n := s.writer.cells, s.writer.next;
    if |c| != CELLS then s
    else if n == 0 then s.(page := Poke(s.page, c[1], 0, 0), writer := Storing(c, 1))
    else if n < CELLS then s.(page := Poke(s.page, c[1], n, c[n]), writer := Storing(c, n + 1))
    else if n == CELLS then s.(page := Poke(s.page, c[1], 0, MAGIC), writer := Storing(c, n + 1))
    else s.(page := s.page.(writeIndex := (c[1] + 1) % WRAP), writer := Idle)
  }

  function Apply(mac: Mac, s: Sys, step: Step): Sys
    requires Enabled(s, step)
  {
    match step
    case Reserve(a) =>
      s.(page := s.page.(driverNonce := (s.page.driverNonce + 1) % WRAP),
         writer := Hashing(a, s.page.driverNonce))
    case HashFails =>
      s.(page := s.page.(driverNonce := (s.page.driverNonce - 1) % WRAP), writer := Idle)
    case HashDone =>
      var c := Encode(mac, s.writer.alert, s.writer.sequence);
      s.(writer := Storing(c, 0), history := s.history + [c], alerts := s.alerts + [s.writer.alert])
    case Store => StoreStep(s)
  }

  /** The zeroed page the module starts with. */
  function Boot(): Sys {
    Sys(Page(0, 0, seq(SLOTS, _ => seq(CELLS, _ => 0))), Idle, [], [])
  }

  /** `s'` follows from `s` by the given writer steps. */
  ghost predicate Runs(mac: Mac, s: Sys, steps: seq<Step>, s': Sys)
    decreases |steps|
  {
    if steps == [] then s == s'
    else Enabled(s, steps[0]) && Runs(mac, Apply(mac, s, steps[0]), steps[1..], s')
  }

  ghost predicate Reaches(mac: Mac, s: Sys, s': Sys) {
    exists steps :: Runs(mac, s, steps, s')
  }

  /** Notifications counted in write_index, without the wrap. */
  function Published(s: Sys): nat {
    if s.writer.Storing? && |s.history| > 0 then |s.history| - 1 else |s.history|
  }

  /** Notifications whose slot has been made valid again. */
  function Validated(s: Sys): nat {
    Published(s) + if s.writer.Storing? && s.writer.next == CELLS + 1 then 1 else 0
  }

  /** The number of the latest notification whose rewrite of slot `number % 16` was completed. */
  function LatestIn(s: Sys, number: nat): int {
    Validated(s) - 1 - (Validated(s) - 1 - number) % SLOTS
  }

  ghost predicate Genuine(mac: Mac, c: seq<nat>, number: nat) {
    && |c| == CELLS
    && c[0] == MAGIC
    && c[1] == number % WRAP
    && c[MAC_AT..] == mac(c[..MAC_AT])
  }

  /** The cells of a notification that hold the alert. */
  ghost predicate Carries(c: seq<nat>, a: Alert) {
    && |c| == CELLS
    && c[2] == a.kind && c[3] == a.level && c[4] == a.timestamp && c[5] == a.param1 && c[6] == a.param2
  }

  ghost predicate AllCarried(h: seq<seq<nat>>, alerts: seq<Alert>) {
    |h| == |alerts| && forall n :: 0 <= n < |h| ==> Carries(h[n], alerts[n])
  }

  ghost predicate Shaped(p: Page) {
    |p.slots| == SLOTS && forall i :: 0 <= i < SLOTS ==> |p.slots[i]| == CELLS
  }

  ghost predicate AllGenuine(mac: Mac, h: seq<seq<nat>>) {
    forall n :: 0 <= n < |h| ==> Genuine(mac, h[n], n)
  }

  /** driver_nonce and write_index agree except while a publication is under way. */
  ghost predicate Counted(s: Sys) {
    var p := Published(s);
    && s.page.writeIndex == p % WRAP
    && s.page.driverNonce == (if s.writer.Idle? then p else p + 1) % WRAP
    && (s.writer.Hashing? ==> s.writer.sequence == p % WRAP)
    && (s.writer.Storing? ==> p < |s.history| && s.writer.cells == s.history[p] && s.writer.next <= CELLS + 1)
  }

  /** The slot of notification `p` while store `n` is next: cells below `n` are new, the others still old. */
  ghost predicate Rewriting(slot: seq<nat>, c: seq<nat>, n: nat, h: seq<seq<nat>>, p: nat) {
    && |slot| == |c| == CELLS
    && (n == 0 && SLOTS <= p <= |h| ==> slot == h[p - SLOTS])
    && (1 <= n <= CELLS ==>
      && slot[0] == 0
      && (forall k :: 1 <= k < n ==> slot[k] == c[k])
      && (SLOTS <= p <= |h| && |h[p - SLOTS]| == CELLS ==>
          forall k :: n <= k < CELLS ==> slot[k] == h[p - SLOTS][k]))
    && (n == CELLS + 1 ==> slot == c)
  }

  /** Every slot the writer is not busy with holds the last notification published into it. */
  ghost predicate Stable(slots: seq<seq<nat>>, h: seq<seq<nat>>, p: nat, busy: bool)
    requires |slots| == SLOTS && p <= |h|
  {
    forall n :: 0 <= n < p && p - SLOTS <= n && !(busy && n == p - SLOTS) ==> slots[n % SLOTS] == h[n]
  }

  /** What every store of the writer keeps. */
  ghost predicate Inv(mac: Mac, s: Sys) {
    var p := Published(s);
    && Shaped(s.page)
    && AllGenuine(mac, s.history)
    && AllCarried(s.history, s.alerts)
    && Counted(s)
    && (s.writer.Storing? ==> Rewriting(s.page.slots[p % SLOTS], s.writer.cells, s.writer.next, s.history, p))
    && Stable(s.page.slots, s.history, p, s.writer.Storing?)
  }

  lemma BootInv(mac: Mac)
    ensures Inv(mac, Boot())
  {
  }

  lemma ApplyInv(mac: Mac, s: Sys, step: Step)
    requires FourWords(mac) && Inv(mac, s) && Enabled(s, step)
    ensures Inv(mac, Apply(mac, s, step))
  {
    hide Stable, AllGenuine, AllCarried, Rewriting;
    match step
    case Reserve(_) => IdleStepInv(mac, s, step);
    case HashFails => IdleStepInv(mac, s, step);
    case HashDone => HashDoneInv(mac, s);
    case Store =>
      if s.writer.next <= CELLS { CellStoreInv(mac, s); } else { CountInv(mac, s); }
  }

  /** Steps before the first store leave the page alone. */
  lemma IdleStepInv(mac: Mac, s: Sys, step: Step)
    requires FourWords(mac) && Inv(mac, s) && Enabled(s, step) && (step.Reserve? || step.HashFails?)
    ensures Inv(mac, Apply(mac, s, step))
  {
    hide Stable, AllGenuine, AllCarried, Rewriting;
  }

  lemma EncodeGenuine(mac: Mac, a: Alert, number: nat)
    requires FourWords(mac)
    ensures Genuine(mac, Encode(mac, a, number % WRAP), number) && Carries(Encode(mac, a, number % WRAP), a)
  {
    var body := [MAGIC, number % WRAP, a.kind, a.level, a.timestamp, a.param1, a.param2];
    var c := Encode(mac, a, number % WRAP);
    assert c[..MAC_AT] == body && c[MAC_AT..] == mac(body);
  }

  lemma HashDoneInv(mac: Mac, s: Sys)
    requires FourWords(mac) && Inv(mac, s) && s.writer.Hashing?
    ensures Inv(mac, Apply(mac, s, HashDone))
  {
    hide Genuine, Stable, Carries;
    var c := Encode(mac, s.writer.alert, s.writer.sequence);
    var s', p := Apply(mac, s, HashDone), Published(s);
    EncodeGenuine(mac, s.writer.alert, p);
    assert s'.history == s.history + [c] && Published(s') == p;
    StableBegin(s.page.slots, s.history, c, p);
    GenuineLength(mac, c, p);
  }

  lemma GenuineLength(mac: Mac, c: seq<nat>, number: nat)
    requires Genuine(mac, c, number)
    ensures |c| == CELLS
  {
  }

  lemma StableBegin(slots: seq<seq<nat>>, h: seq<seq<nat>>, c: seq<nat>, p: nat)
    requires |slots| == SLOTS && p == |h| && Stable(slots, h, p, false)
    ensures Stable(slots, h + [c], p, true)
    ensures SLOTS <= p ==> slots[p % SLOTS] == h[p - SLOTS]
  {
    assert SLOTS <= p ==> slots[(p - SLOTS) % SLOTS] == h[p - SLOTS];
  }

  /** The slot survives the wrap of the sequence number. */
  lemma SlotOf(p: nat)
    ensures (p % WRAP) % SLOTS == p % SLOTS
  {
    assert p == p / WRAP * 0x1000_0000 * SLOTS + p % WRAP;
  }

  lemma CellStoreSlot(slot: seq<nat>, c: seq<nat>, n: nat, h: seq<seq<nat>>, p: nat)
    requires Rewriting(slot, c, n, h, p) && n <= CELLS && c[0] == MAGIC
    ensures var v: nat := if n == 0 then 0 else c[n % CELLS];
            Rewriting(slot[n % CELLS := v], c, n + 1, h, p)
  {
    if n == CELLS {
      assert slot[0 := c[0]] == c;
    }
  }

  lemma StableFrame(slots: seq<seq<nat>>, slots': seq<seq<nat>>, h: seq<seq<nat>>, p: nat)
    requires |slots| == |slots'| == SLOTS && p <= |h| && Stable(slots, h, p, true)
    requires forall i :: 0 <= i < SLOTS && i != p % SLOTS ==> slots'[i] == slots[i]
    ensures Stable(slots', h, p, true)
  {
    forall n | 0 <= n < p && p - SLOTS < n
      ensures slots'[n % SLOTS] == h[n]
    {
      assert n % SLOTS != p % SLOTS;
      assert slots[n % SLOTS] == h[n];
    }
  }

  /** A store into the slot leaves the other fifteen alone. */
  lemma CellStoreInv(mac: Mac, s: Sys)
    requires Inv(mac, s) && s.writer.Storing? && s.writer.next <= CELLS
    ensures Inv(mac, StoreStep(s))
  {
    var c, n, p := s.writer.cells, s.writer.next, Published(s);
    var s' := StoreStep(s);
    assert Genuine(mac, s.history[p], p);
    SlotOf(p);
    CellStoreSlot(s.page.slots[p % SLOTS], c, n, s.history, p);
    assert s'.page.slots[p % SLOTS] == s.page.slots[p % SLOTS][n % CELLS := if n == 0 then 0 else c[n % CELLS]];
    assert s'.history == s.history && Published(s') == p;
    assert Shaped(s'.page) && AllGenuine(mac, s'.history) && Counted(s');
    StableFrame(s.page.slots, s'.page.slots, s.history, p);
  }

  lemma CountInv(mac: Mac, s: Sys)
    requires Inv(mac, s) && s.writer.Storing? && s.writer.next == CELLS + 1
    ensures Inv(mac, StoreStep(s))
  {
    var p := Published(s);
    assert Genuine(mac, s.history[p], p);
    assert (p % WRAP + 1) % WRAP == (p + 1) % WRAP;
  }

  /** How far the writer has come: grows with every store and never falls. */
  function Progress(s: Sys): nat {
    Published(s) * SLOTS + if s.writer.Storing? then s.writer.next + 1 else 0
  }

  /** The order of states along a run. */
  ghost predicate Before(s: Sys, s': Sys) {
    s.history <= s'.history && s.alerts <= s'.alerts && Published(s) <= Published(s') && Progress(s) <= Progress(s')
  }

  lemma ApplyBefore(mac: Mac, s: Sys, step: Step)
    requires FourWords(mac) && Inv(mac, s) && Enabled(s, step)
    ensures Before(s, Apply(mac, s, step))
  {
  }

  /** Whatever the writer does between two observations, the invariant holds at both and history only grows. */
  lemma {:induction false} RunsInv(mac: Mac, s: Sys, steps: seq<Step>, s': Sys)
    requires FourWords(mac) && Inv(mac, s) && Runs(mac, s, steps, s')
    ensures Inv(mac, s') && Before(s, s')
    decreases |steps|
  {
    if steps != [] {
      ApplyInv(mac, s, steps[0]);
      ApplyBefore(mac, s, steps[0]);
      RunsInv(mac, Apply(mac, s, steps[0]), steps[1..], s');
    }
  }

  lemma ReachesInv(mac: Mac, s: Sys, s': Sys)
    requires FourWords(mac) && Inv(mac, s) && Reaches(mac, s, s')
    ensures Inv(mac, s') && Before(s, s')
  {
    var steps :| Runs(mac, s, steps, s');
    RunsInv(mac, s, steps, s');
  }

  /** The number of the notification that cell `k` of the slot of `c` was last stored for. */
  function SourceOf(s: Sys, c: nat, k: nat): int {
    var p := Published(s);
    if s.writer.Storing? && p % SLOTS == c % SLOTS then
      if s.writer.next == 0 || k >= s.writer.next then p - SLOTS else p
    else p - 1 - (p - 1 - c) % SLOTS
  }

  /** Every cell of the slot of a published notification comes from it or from a later one (or is the zero magic). */
  lemma CellSource(mac: Mac, s: Sys, c: nat, k: nat)
    requires Inv(mac, s) && c < Published(s) && k < CELLS
    ensures var n, v := SourceOf(s, c, k), s.page.slots[c % SLOTS][k];
            && c <= n < |s.history| && n % SLOTS == c % SLOTS
            && |s.history[n]| == CELLS
            && (v == s.history[n][k] || (k == 0 && v == 0))
  {
    var n, p := SourceOf(s, c, k), Published(s);
    SameSlot(p, c);
    if s.writer.Storing? && p % SLOTS == c % SLOTS {
      assert Genuine(mac, s.history[p], p) && Genuine(mac, s.history[p - SLOTS], p - SLOTS);
    } else {
      assert Genuine(mac, s.history[n], n);
      assert s.page.slots[n % SLOTS] == s.history[n];
    }
  }

  lemma SameSlot(p: nat, c: nat)
    requires c < p
    ensures p % SLOTS == c % SLOTS ==> c + SLOTS <= p && (p - SLOTS) % SLOTS == c % SLOTS && (p - 1 - c) % SLOTS == SLOTS - 1
    ensures var n := p - 1 - (p - 1 - c) % SLOTS; c <= n < p && p - SLOTS <= n && n % SLOTS == c % SLOTS
    ensures var n := p - 1 - (p - 1 - c) % SLOTS; p % SLOTS != c % SLOTS ==> n != p - SLOTS
  {
  }

  /** An invalid magic on a published slot means that a rewrite is under way, so it has been lapped. */
  lemma InvalidMeansLapped(mac: Mac, s: Sys, c: nat)
    requires Inv(mac, s) && c < Published(s) && s.page.slots[c % SLOTS][0] != MAGIC
    ensures c + SLOTS <= Published(s)
    ensures s.writer.Storing? && Published(s) % SLOTS == c % SLOTS && 1 <= s.writer.next <= CELLS
  {
    var n := SourceOf(s, c, 0);
    CellSource(mac, s, c, 0);
    assert Genuine(mac, s.history[n], n);
    SameSlot(Published(s), c);
    if s.writer.Storing? && Published(s) % SLOTS == c % SLOTS {
      assert Genuine(mac, s.history[Published(s)], Published(s));
    }
  }

  /** A valid magic means the slot holds, whole, the notification that last completed its rewrite. */
  lemma ValidMeansWhole(mac: Mac, s: Sys, c: nat)
    requires Inv(mac, s) && c < Published(s) && s.page.slots[c % SLOTS][0] == MAGIC
    ensures var n := LatestIn(s, c);
            c <= n < |s.history| && n % SLOTS == c % SLOTS && s.page.slots[c % SLOTS] == s.history[n]
  {
    hide AllGenuine, Genuine, AllCarried;
    var n, p := LatestIn(s, c), Published(s);
    SameSlot(p, c);
    SameSlot(p + 1, c);
    if s.writer.Storing? && p % SLOTS == c % SLOTS {
      assert s.writer.next == 0 || s.writer.next == CELLS + 1;
    } else {
      assert s.page.slots[n % SLOTS] == s.history[n];
    }
  }

  lemma LatestGrows(s: Sys, s': Sys, c: nat)
    requires Validated(s) <= Validated(s')
    ensures LatestIn(s, c) <= LatestIn(s', c)
  {
  }

  /** If no rewrite of the slot completed between two moments and it is valid at the second, it was valid at the first. */
  lemma NoRewriteBetween(mac: Mac, s: Sys, s': Sys, c: nat)
    requires Inv(mac, s) && Inv(mac, s') && Before(s, s') && c < Published(s)
    requires s'.page.slots[c % SLOTS][0] == MAGIC && LatestIn(s, c) == LatestIn(s', c)
    ensures s.page.slots[c % SLOTS][0] == MAGIC
  {
    if s.page.slots[c % SLOTS][0] != MAGIC {
      InvalidMeansLapped(mac, s, c);
      SameSlot(Published(s), c);
      if Published(s') == Published(s) {
        assert s'.writer.next == CELLS + 1;
      }
      SameSlot(Published(s) + 1, c);
      AtLeast(s', c, Published(s));
    }
  }

  lemma AtLeast(s: Sys, c: nat, p: nat)
    requires p % SLOTS == c % SLOTS && p < Validated(s)
    ensures p <= LatestIn(s, c)
  {
  }
}

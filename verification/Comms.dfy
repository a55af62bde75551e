/** The publishing side of the alert ring, as the kernel runs it under its lock. */
module Comms {
  import opened AlertRing
  import RateLimit

  datatype Rc = Ok | Busy | HashError

  class Channel {
    const mac: Mac
    var writeIndex: nat
    var driverNonce: nat
    var slots: seq<seq<nat>>
    var rlTokens: nat
    var rlLastNs: nat
    var sent: nat
    var dropped: nat
    var ueCursor: nat
    ghost var history: seq<seq<nat>>
    ghost var alerts: seq<Alert>
    ghost var failed: nat
    ghost var submitted: nat
    ghost var uePos: nat

    /** The page as the interleaving model sees it while nobody holds the lock. */
    ghost function View(): Sys
      reads this
    {
      Sys(Page(writeIndex, driverNonce, slots), Idle, history, alerts)
    }

    function Bucket(): RateLimit.Bucket
      reads this
    {
      RateLimit.Bucket(rlTokens, rlLastNs)
    }

    ghost predicate Valid()
      reads this
    {
      && FourWords(mac) && Inv(mac, View())
      && rlTokens <= RateLimit.BURST
      && sent == |history|
      && sent + dropped + failed == submitted
      && ueCursor == uePos % WRAP && uePos <= |history|
    }

    constructor (mac: Mac, now: nat)
      requires FourWords(mac)
      ensures Valid() && View() == Boot() && this.mac == mac && Bucket() == RateLimit.Bucket(RateLimit.BURST, now)
    {
      this.mac := mac;
      writeIndex, driverNonce, slots := 0, 0, seq(SLOTS, _ => seq(CELLS, _ => 0));
      rlTokens, rlLastNs := RateLimit.BURST, now;
      sent, dropped, ueCursor := 0, 0, 0;
      history, alerts, failed, submitted, uePos := [], [], 0, 0, 0;
      BootInv(mac);
    }

    /** kg_rl_allow. */
    method RlAllow(now: nat) returns (ok: bool)
      requires rlLastNs <= now
      modifies this`rlTokens, this`rlLastNs
      ensures ok == RateLimit.Allows(old(Bucket()), now) && Bucket() == RateLimit.Take(old(Bucket()), now)
    {
      var add := (now - rlLastNs) / RateLimit.INTERVAL;
      if add != 0 {
        rlTokens := if rlTokens + add < RateLimit.BURST then rlTokens + add else RateLimit.BURST;
        rlLastNs := rlLastNs + add * RateLimit.INTERVAL;
      }
      if rlTokens == 0 {
        return false;
      }
      rlTokens := rlTokens - 1;
      return true;
    }

    method Put(slot: nat, k: nat, value: nat)
      requires slot < |slots| && k < |slots[slot]|
      modifies this`slots
      ensures |slots| == |old(slots)| && slots[slot] == old(slots)[slot][k := value]
      ensures forall i :: 0 <= i < |slots| && i != slot ==> slots[i] == old(slots)[i]
    {
      var cells: seq<nat> := slots[slot][k := value];
      slots := slots[slot := cells];
    }

    /**
     Publishes one alert.  On success the page is what the fifteen steps of an undisturbed publication make of
     it; a rate-limited or failed one leaves the page as it was, so it never leaves a gap in the numbers.
     */
    method Notify(a: Alert, now: nat, hashOk: bool) returns (rc: Rc)
      requires Valid() && rlLastNs <= now
      modifies this
      ensures Valid() && submitted == old(submitted) + 1
      ensures var d := RateLimit.Decide(old(Bucket()), RateLimit.Submission(now, a.level, hashOk));
              && Bucket() == d.1
              && d.0 == match rc { case Ok => RateLimit.Sent case Busy => RateLimit.Dropped case HashError => RateLimit.Failed }
      ensures rc.Ok? ==> Runs(mac, old(View()), PublishSteps(a), View()) && sent == old(sent) + 1
      ensures rc.Ok? ==> Appended(mac, old(history), history, a) && alerts == old(alerts) + [a]
      ensures !rc.Ok? ==> View() == old(View()) && sent == old(sent)
      ensures rc.HashError? ==> Runs(mac, old(View()), [Reserve(a), HashFails], View())
      ensures driverNonce == writeIndex && uePos == old(uePos)
    {
      hide Inv, Runs, FourWords;
      submitted := submitted + 1;
      if a.level < RateLimit.CRITICAL {
        var allowed := RlAllow(now);
        if !allowed {
          dropped := dropped + 1;
          IdleIndex(mac, View());
          return Busy;
        }
      }
      rc := Send(a, hashOk);
    }

    /** The part of Notify after the rate limiter: number, authenticate, store. */
    method Send(a: Alert, hashOk: bool) returns (rc: Rc)
      requires FourWords(mac) && Inv(mac, View()) && sent == |history|
      modifies this`writeIndex, this`driverNonce, this`slots, this`history, this`alerts, this`sent, this`failed
      ensures Inv(mac, View()) && sent == |history| && driverNonce == writeIndex
      ensures rc == if hashOk then Ok else HashError
      ensures rc.Ok? ==> Runs(mac, old(View()), PublishSteps(a), View()) && sent == old(sent) + 1 && failed == old(failed)
      ensures rc.Ok? ==> Appended(mac, old(history), history, a) && alerts == old(alerts) + [a]
      ensures rc.HashError? ==> Runs(mac, old(View()), [Reserve(a), HashFails], View())
      ensures rc.HashError? ==> View() == old(View()) && sent == old(sent) && failed == old(failed) + 1
    {
      hide Carries, FourWords, Stable, AllCarried, AllGenuine;
      ghost var s := View();
      var sequence := driverNonce;
      driverNonce := (driverNonce + 1) % WRAP;
      if !hashOk {
        driverNonce := (driverNonce - 1) % WRAP;
        failed := failed + 1;
        ReserveFails(mac, s, a);
        return HashError;
      }
      var n := Encode(mac, a, sequence);
      PublishRuns(mac, s, a);
      IdleIndex(mac, s);
      EncodeGenuine(mac, a, |history|);
      Publish(sequence, n);
      alerts := alerts + [a];
      sent := sent + 1;
      return Ok;
    }

    /** The stores, in the order the reader relies on. */
    method Publish(sequence: nat, n: seq<nat>)
      requires Shaped(Page(writeIndex, driverNonce, slots)) && |n| == CELLS && n[0] == MAGIC
      modifies this`slots, this`writeIndex, this`history
      ensures slots == old(slots)[sequence % SLOTS := n] && writeIndex == (sequence + 1) % WRAP
      ensures history == old(history) + [n]
    {
      history := history + [n];
      var slot := sequence % SLOTS;
      Put(slot, 0, 0);
      Put(slot, 1, n[1]);
      Put(slot, 2, n[2]);
      Put(slot, 3, n[3]);
      Put(slot, 4, n[4]);
      Put(slot, 5, n[5]);
      Put(slot, 6, n[6]);
      var k := MAC_AT;
      while k < CELLS
        modifies this`slots
        invariant MAC_AT <= k <= CELLS && |slots| == SLOTS
        invariant slots == old(slots)[slot := slots[slot]] && |slots[slot]| == CELLS
        invariant forall j :: 1 <= j < k ==> slots[slot][j] == n[j]
      {
        Put(slot, k, n[k]);
        k := k + 1;
      }
      Put(slot, 0, MAGIC);
      assert slots[slot] == n;
      writeIndex := (sequence + 1) % WRAP;
    }

    /** One turn of the uevent worker: the snapshot it takes under the lock is always valid. */
    method UeventTake() returns (taken: bool, snap: seq<nat>)
      requires Valid()
      modifies this`ueCursor, this`uePos
      ensures Valid()
      ensures taken == (old(uePos) % WRAP != |history| % WRAP)
      ensures !taken ==> ueCursor == old(ueCursor)
      ensures taken ==>
        && old(uePos) < uePos <= |history| < uePos + SLOTS
        && snap == history[uePos - 1] && snap[0] == MAGIC && snap[1] == (uePos - 1) % WRAP
        && |alerts| == |history| && Carries(snap, alerts[uePos - 1])
        && (|history| - old(uePos) <= SLOTS ==> uePos == old(uePos) + 1)
    {
      hide Inv;
      var end, i := writeIndex, ueCursor;
      ghost var h := |history|;
      IdleIndex(mac, View());
      snap := [];
      if i == end {
        return false, snap;
      }
      ghost var lag := (h - uePos) % WRAP;
      TakeFrom(h, uePos);
      if (end - i) % WRAP > SLOTS {
        i := (end - SLOTS) % WRAP;
      }
      ghost var number: nat := h - if lag > SLOTS then SLOTS else lag;
      SlotOf(number);
      IdleSlot(mac, View(), number);
      snap := slots[i % SLOTS];
      ueCursor := (i + 1) % WRAP;
      uePos := number + 1;
      NextResidue(number);
      return true, snap;
    }
  }

  /** The history grows by one notification, which carries the alert under the next number. */
  ghost predicate Appended(mac: Mac, h: seq<seq<nat>>, h': seq<seq<nat>>, a: Alert) {
    && |h'| == |h| + 1 && h <= h'
    && var c := h'[|h|];
       && |c| == 11 && c[0] == 0xDEAD_C0DE && c[1] == |h| % 0x1_0000_0000
       && c[2] == a.kind && c[3] == a.level && c[4] == a.timestamp && c[5] == a.param1 && c[6] == a.param2
       && c[7..] == mac(c[..7])
  }

  lemma IdleIndex(mac: Mac, s: Sys)
    requires Inv(mac, s) && s.writer.Idle?
    ensures s.page.driverNonce == s.page.writeIndex == |s.history| % WRAP && |s.page.slots| == SLOTS
  {
  }

  /** Under the lock, each of the last sixteen notifications is whole in its slot. */
  lemma IdleSlot(mac: Mac, s: Sys, n: nat)
    requires Inv(mac, s) && s.writer.Idle? && n < |s.history| <= n + SLOTS
    ensures |s.page.slots| == SLOTS && s.page.slots[n % SLOTS] == s.history[n] && Genuine(mac, s.history[n], n)
    ensures |s.alerts| == |s.history| && Carries(s.history[n], s.alerts[n])
  {
  }

  function PublishSteps(a: Alert): seq<Step> {
    [Reserve(a), HashDone] + seq(CELLS + 2, _ => Store)
  }

  lemma NextResidue(n: nat)
    ensures (n % WRAP + 1) % WRAP == (n + 1) % WRAP
  {
  }

  /** The residues the worker computes with stand for the numbers it means. */
  lemma TakeFrom(h: nat, u: nat)
    requires u <= h && u % WRAP != h % WRAP
    ensures var lag := (h - u) % WRAP;
            && 0 < lag && (h % WRAP - u % WRAP) % WRAP == lag && lag <= h
            && (h - lag) % WRAP == u % WRAP
            && (lag > SLOTS ==> (h % WRAP - SLOTS) % WRAP == (h - SLOTS) % WRAP)
            && u <= h - lag
  {
    Residue(h, u);
    Residue(h, SLOTS);
    WholeTurns(u, h - u);
    if (h - u) % WRAP == 0 {
      assert false;
    }
  }

  /** Whole turns of the counter bring it back to the same residue. */
  lemma WholeTurns(u: nat, d: nat)
    ensures d % WRAP <= d && (u + d - d % WRAP) % WRAP == u % WRAP
  {
    var q := d / WRAP;
    assert d - d % WRAP == q * WRAP;
    Turn(u, q);
  }

  lemma Turn(u: nat, q: nat)
    ensures (u + q * WRAP) % WRAP == u % WRAP
  {
    var r := u % WRAP;
    assert u + q * WRAP == (u / WRAP + q) * WRAP + r;
  }

  lemma Residue(a: nat, b: nat)
    ensures (a % WRAP - b % WRAP) % WRAP == (a - b) % WRAP
  {
    assert a == a / WRAP * WRAP + a % WRAP && b == b / WRAP * WRAP + b % WRAP;
    assert a - b == (a / WRAP - b / WRAP) * WRAP + (a % WRAP - b % WRAP);
  }

  lemma ReserveFails(mac: Mac, s: Sys, a: Alert)
    requires s.writer.Idle? && s.page.driverNonce < WRAP
    ensures Runs(mac, s, [Reserve(a), HashFails], s)
  {
    var s1 := Apply(mac, s, Reserve(a));
    assert Apply(mac, s1, HashFails) == s;
    assert [Reserve(a), HashFails][1..] == [HashFails];
    assert Runs(mac, s1, [HashFails], s);
  }

  /** The state an undisturbed publication ends in. */
  function Finished(s: Sys): Sys
    requires s.writer.Storing? && |s.writer.cells| == CELLS && |s.page.slots| == SLOTS
  {
    var c := s.writer.cells;
    Sys(Page((c[1] + 1) % WRAP, s.page.driverNonce, s.page.slots[c[1] % SLOTS := c]), Idle, s.history, s.alerts)
  }

  lemma {:induction false} StoresRun(mac: Mac, s: Sys)
    requires FourWords(mac) && Inv(mac, s) && s.writer.Storing?
    requires s.writer.next <= CELLS + 1 && |s.writer.cells| == CELLS && |s.page.slots| == SLOTS
    ensures Runs(mac, s, seq(CELLS + 2 - s.writer.next, _ => Store), Finished(s))
    decreases CELLS + 2 - s.writer.next
  {
    hide Inv;
    var left := CELLS + 2 - s.writer.next;
    var steps := seq(left, _ => Store);
    ApplyInv(mac, s, Store);
    StoreFinishes(mac, s);
    assert steps[1..] == seq(left - 1, _ => Store);
    if left > 1 {
      StoresRun(mac, StoreStep(s));
    }
  }

  /** One store does not change where the publication will end. */
  lemma StoreFinishes(mac: Mac, s: Sys)
    requires Inv(mac, s) && s.writer.Storing?
    ensures s.writer.next <= CELLS + 1 && |s.writer.cells| == CELLS && |s.page.slots| == SLOTS
    ensures s.writer.next == CELLS + 1 ==> StoreStep(s) == Finished(s)
    ensures s.writer.next <= CELLS ==>
              var s' := StoreStep(s);
              s'.writer == Storing(s.writer.cells, s.writer.next + 1) && |s'.page.slots| == SLOTS && Finished(s') == Finished(s)
  {
    hide Stable, Rewriting;
    var p := Published(s);
    assert Genuine(mac, s.history[p], p);
    SlotOf(p);
    if s.writer.next == CELLS + 1 {
      Rewritten(mac, s);
    } else {
      var s' := StoreStep(s);
      assert s'.page.slots[p % SLOTS := s.writer.cells] == s.page.slots[p % SLOTS := s.writer.cells];
    }
  }

  lemma Rewritten(mac: Mac, s: Sys)
    requires Inv(mac, s) && s.writer.Storing? && s.writer.next == CELLS + 1
    ensures s.page.slots[Published(s) % SLOTS := s.writer.cells] == s.page.slots
  {
  }

  lemma PublishRuns(mac: Mac, s: Sys, a: Alert)
    requires FourWords(mac) && Inv(mac, s) && s.writer.Idle?
    ensures var q := s.page.driverNonce; var c := Encode(mac, a, q);
            var s' := Sys(Page((q + 1) % WRAP, (q + 1) % WRAP, s.page.slots[q % SLOTS := c]), Idle, s.history + [c], s.alerts + [a]);
            Runs(mac, s, PublishSteps(a), s') && Inv(mac, s')
  {
    hide Inv;
    var s1 := Apply(mac, s, Reserve(a));
    ApplyInv(mac, s, Reserve(a));
    var s2 := Apply(mac, s1, HashDone);
    ApplyInv(mac, s1, HashDone);
    IdleIndex(mac, s);
    StoreFinishes(mac, s2);
    StoresRun(mac, s2);
    var stores := seq(CELLS + 2, _ => Store);
    RunsInv(mac, s2, stores, Finished(s2));
    assert PublishSteps(a)[1..] == [HashDone] + stores;
    assert ([HashDone] + stores)[1..] == stores;
    assert Runs(mac, s1, [HashDone] + stores, Finished(s2));
  }
}

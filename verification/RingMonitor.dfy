/**
 The monitor's drain loop over the alert ring, and the account it keeps of every sequence number.
 */
module RingMonitor {
  import opened AlertRing
  import opened RingReader

  const TRIES := 50

  /** 32-bit subtraction. */
  function Sub32(a: nat, b: nat): nat {
    (a - b) % WRAP
  }

  lemma Sub32Numbers(a: nat, b: nat)
    requires b <= a
    ensures Sub32(a % WRAP, b % WRAP) == (a - b) % WRAP
  {
    var qa, qb := a / WRAP, b / WRAP;
    assert a == qa * WRAP + a % WRAP && b == qb * WRAP + b % WRAP;
    assert a - b == (qa - qb) * WRAP + (a % WRAP - b % WRAP);
    ModShift(qa - qb, a % WRAP - b % WRAP);
  }

  lemma SameResidue(a: nat, b: nat)
    requires b <= a
    ensures (a - (a - b) % WRAP) % WRAP == b % WRAP
  {
    assert a - (a - b) % WRAP == (a - b) / WRAP * WRAP + b;
    ModShift((a - b) / WRAP, b);
  }

  lemma ModShift(q: int, r: int)
    ensures (q * WRAP + r) % WRAP == r % WRAP
  {
  }

  lemma StepBack(p: nat, back: nat)
    requires back <= p % WRAP
    ensures back <= p && (p - back) % WRAP == p % WRAP - back
  {
    assert p == p / WRAP * WRAP + p % WRAP;
    ModShift(p / WRAP, p % WRAP - back);
  }

  datatype Event =
    | Lost(sequence: nat, count: nat)
    | Emitted(sequence: nat, note: seq<nat>, authentic: bool)
    | Overrun(sequence: nat)
    | Tamper(sequence: nat)

  /** How many sequence numbers an event accounts for. */
  function Width(e: Event): nat {
    if e.Lost? then e.count else 1
  }

  /** The log's events account for the numbers from `start` to `pos` one after the other. */
  ghost predicate Ledger(log: seq<Event>, at: seq<nat>, start: nat, pos: nat) {
    && |at| == |log| + 1
    && at[0] == start && at[|log|] == pos
    && forall i :: 0 <= i < |log| ==>
         at[i + 1] == at[i] + Width(log[i]) && 0 < Width(log[i]) && log[i].sequence == at[i] % WRAP
  }

  /** What an honest writer makes of an event that accounts for the numbers from `n` on. */
  ghost predicate EntryHolds(e: Event, n: nat, s: Sys) {
    match e
    case Lost(_, count) => n + count + SLOTS <= Published(s)
    case Emitted(_, note, authentic) =>
      if authentic then IsNumber(s, n, note) && n < |s.alerts| && Carries(note, s.alerts[n]) else n + SLOTS < Validated(s)
    case Overrun(_) => n + SLOTS <= Published(s)
    case Tamper(_) => false
  }

  ghost predicate AllHold(log: seq<Event>, at: seq<nat>, s: Sys) {
    |at| > |log| && forall i :: 0 <= i < |log| ==> EntryHolds(log[i], at[i], s)
  }

  lemma AllHoldLater(mac: Mac, trace: Trace, log: seq<Event>, at: seq<nat>, t: nat, t': nat)
    requires Honest(mac, trace) && AllHold(log, at, trace(t)) && t <= t'
    ensures AllHold(log, at, trace(t'))
  {
    TraceInv(mac, trace, t);
    TraceInv(mac, trace, t');
    TraceBefore(mac, trace, t, t');
    ValidatedGrows(mac, trace(t), trace(t'));
    forall i | 0 <= i < |log|
      ensures EntryHolds(log[i], at[i], trace(t'))
    {
      assert EntryHolds(log[i], at[i], trace(t));
    }
  }

  /** The log grows by one event that holds. */
  lemma Append(log: seq<Event>, at: seq<nat>, start: nat, pos: nat, e: Event, s: Sys)
    requires Ledger(log, at, start, pos) && AllHold(log, at, s)
    requires 0 < Width(e) && e.sequence == pos % WRAP && EntryHolds(e, pos, s)
    ensures Ledger(log + [e], at + [pos + Width(e)], start, pos + Width(e)) && AllHold(log + [e], at + [pos + Width(e)], s)
  {
  }

  /** The lag that is counted as lost when `p` notifications are out and the reader is at `c`. */
  lemma LostCount(p: nat, c: nat)
    requires c <= p && Sub32(p % WRAP, c % WRAP) > SLOTS
    ensures var lag := (p - c) % WRAP;
            && Sub32(p % WRAP, c % WRAP) == lag
            && Sub32(lag, SLOTS) == lag - SLOTS
            && p >= SLOTS && Sub32(p % WRAP, SLOTS) == (p - SLOTS) % WRAP
  {
    Sub32Numbers(p, c);
    Sub32Numbers(p, SLOTS);
  }

  /** An acquire-load of write_index. */
  method LoadIndex(mac: Mac, trace: Trace, now: nat) returns (w: nat)
    requires Honest(mac, trace)
    ensures w == trace(now).page.writeIndex == Published(trace(now)) % WRAP
  {
    TraceInv(mac, trace, now);
    w := trace(now).page.writeIndex;
  }

  lemma WholeIsAuthentic(mac: Mac, trace: Trace, t: nat, n: int, note: seq<nat>)
    requires Honest(mac, trace) && IsNumber(trace(t), n, note)
    ensures Authentic(mac, note)
  {
    TraceInv(mac, trace, t);
    assert Genuine(mac, trace(t).history[n], n);
  }

  /** Each number from `start` to `pos` is accounted for by exactly one event, and no other number by any. */
  lemma {:induction false} ExactlyOnce(log: seq<Event>, at: seq<nat>, start: nat, pos: nat, n: nat)
    requires Ledger(log, at, start, pos)
    ensures start <= pos
    ensures start <= n < pos ==>
              exists i :: CoveredOnlyBy(log, at, i, n)
    ensures !(start <= n < pos) ==> forall i :: !Covers(log, at, i, n)
  {
    if log != [] {
      var k := |log| - 1;
      ExactlyOnce(log[..k], at[..k + 1], start, at[k], n);
      if start <= n < at[k] {
        var i :| CoveredOnlyBy(log[..k], at[..k + 1], i, n);
        forall j | Covers(log, at, j, n)
          ensures j == i
        {
          assert j != k;
          assert Covers(log[..k], at[..k + 1], j, n);
        }
        assert CoveredOnlyBy(log, at, i, n);
      } else if start <= n < pos {
        forall j | Covers(log, at, j, n)
          ensures j == k
        {
          assert !Covers(log[..k], at[..k + 1], j, n);
        }
        assert CoveredOnlyBy(log, at, k, n);
      } else {
        forall j
          ensures !Covers(log, at, j, n)
        {
          assert !Covers(log[..k], at[..k + 1], j, n);
        }
      }
    }
  }

  ghost predicate CoveredOnlyBy(log: seq<Event>, at: seq<nat>, i: int, n: nat) {
    Covers(log, at, i, n) && forall j :: Covers(log, at, j, n) ==> j == i
  }

  ghost predicate Covers(log: seq<Event>, at: seq<nat>, i: int, n: nat) {
    0 <= i < |log| && i < |at| && at[i] <= n < at[i] + Width(log[i])
  }

  class Monitor {
    const mac: Mac
    const trace: Trace
    var clock: nat
    var cursor: nat
    var log: seq<Event>
    /** `cursor` without the wrap, and the number each event of the log begins at. */
    ghost var pos: nat
    ghost var start: nat
    ghost var at: seq<nat>

    /** The cursor names a number the writer has already reached. */
    ghost predicate Placed()
      reads this
    {
      Honest(mac, trace) && cursor == pos % WRAP && pos <= Published(trace(clock))
    }

    /** Every number since the start is in the log exactly once, and every event is what it says. */
    ghost predicate Books()
      reads this
    {
      Ledger(log, at, start, pos) && AllHold(log, at, trace(clock))
    }

    /** Opens the ring at `clock`: from the current write index, or from the oldest slot. */
    constructor (mac: Mac, trace: Trace, clock: nat, newOnly: bool)
      requires Honest(mac, trace)
      ensures Placed() && Books() && this.mac == mac && this.trace == trace && this.clock == clock && log == []
      ensures var p := Published(trace(clock));
              pos == start == p - if newOnly then 0 else if p % WRAP > SLOTS then SLOTS else p % WRAP
    {
      TraceInv(mac, trace, clock);
      var w := trace(clock).page.writeIndex;
      this.mac, this.trace, this.clock, this.log := mac, trace, clock, [];
      this.cursor := if newOnly then w else if w > SLOTS then w - SLOTS else 0;
      ghost var back := if newOnly then 0 else if w > SLOTS then SLOTS else w;
      ghost var p := Published(trace(clock));
      StepBack(p, back);
      this.pos, this.start, this.at := p - back, p - back, [p - back];
    }

    /** The first load of write_index; reports and skips what has been lapped. */
    method CatchUp() returns (w: nat)
      requires Placed()
      modifies this
      ensures Placed() && clock == old(clock) + 1 && start == old(start)
      ensures w == Published(trace(clock)) % WRAP && Published(trace(clock)) - pos <= SLOTS
      ensures old(pos) <= pos
      ensures old(Books()) && Published(trace(clock)) < old(pos) + WRAP ==> Books()
    {
      hide Honest, Published, Ledger, AllHold;
      clock := clock + 1;
      w := LoadIndex(mac, trace, clock);
      Realign();
      if Sub32(w, cursor) > SLOTS {
        SkipLost(w);
      } else {
        Sub32Numbers(Published(trace(clock)), pos);
      }
    }

    /** Accounts for what has been lapped and moves to the oldest slot. */
    method SkipLost(w: nat)
      requires Placed() && w == Published(trace(clock)) % WRAP && Sub32(w, cursor) > SLOTS
      requires Published(trace(clock)) - pos < WRAP
      modifies this`log, this`pos, this`at, this`cursor
      ensures Placed() && pos == Published(trace(clock)) - SLOTS && old(pos) < pos
      ensures old(Books()) ==> Books()
    {
      hide Honest, Published, Ledger, AllHold;
      LostCount(Published(trace(clock)), pos);
      Record(Lost(cursor, Sub32(Sub32(w, cursor), SLOTS)));
      cursor := Sub32(w, SLOTS);
    }

    /** A writer 2^32 ahead looks like one at the same residue: the cursor's number is the nearest below. */
    ghost method Realign()
      requires Honest(mac, trace) && cursor == pos % WRAP && clock > 0 && pos <= Published(trace(clock - 1))
      modifies this`pos
      ensures Placed() && old(pos) <= pos && Published(trace(clock)) - pos < WRAP
      ensures Published(trace(clock)) < old(pos) + WRAP ==> pos == old(pos)
      ensures Ledger(log, at, start, old(pos)) && AllHold(log, at, trace(clock - 1)) && pos == old(pos) ==> Books()
    {
      TraceBefore(mac, trace, clock - 1, clock);
      if AllHold(log, at, trace(clock - 1)) {
        AllHoldLater(mac, trace, log, at, clock - 1, clock);
      }
      var p := Published(trace(clock));
      SameResidue(p, pos);
      pos := p - (p - pos) % WRAP;
    }

    /** Appends one event and moves past what it accounts for. */
    method Record(e: Event)
      modifies this`log, this`pos, this`at
      ensures log == old(log) + [e] && pos == old(pos) + Width(e)
      ensures old(Books()) && 0 < Width(e) && e.sequence == old(pos) % WRAP && EntryHolds(e, old(pos), trace(clock)) ==> Books()
    {
      if Books() && 0 < Width(e) && e.sequence == pos % WRAP && EntryHolds(e, pos, trace(clock)) {
        Append(log, at, start, pos, e, trace(clock));
      }
      log, pos, at := log + [e], pos + Width(e), at + [pos + Width(e)];
    }

    /** Reads, authenticates and reports the notification at the cursor, then steps past it. */
    method TakeOne()
      requires Placed() && pos < Published(trace(clock))
      modifies this
      ensures Placed() && pos == old(pos) + 1 && start == old(start) && old(clock) <= clock
      ensures cursor == (old(cursor) + 1) % WRAP
      ensures old(Books()) && |trace(clock).history| < old(pos) + WRAP ==> Books()
    {
      hide Honest, Published, Ledger, AllHold, EntryHolds;
      ghost var res, first;
      var e;
      e, res, first := Look();
      TraceBefore(mac, trace, old(clock), clock);
      if old(Books()) {
        AllHoldLater(mac, trace, log, at, old(clock), clock);
      }
      Record(e);
      ModShift(old(pos) / WRAP, old(pos) % WRAP + 1);
      cursor := (cursor + 1) % WRAP;
    }

    /** Up to fifty attempts at the slot; `first` is the first load of the last of them. */
    method Attempt() returns (res: SlotResult, n: seq<nat>, ghost first: nat, ghost tried: nat)
      requires Placed() && pos < Published(trace(clock))
      modifies this`clock
      ensures old(clock) < first <= clock && ReadAs(res, n, first)
      ensures 1 <= tried <= 50 && (res.SlotRetry? ==> tried == 50)
    {
      hide Honest, Authentic, Republished, IsNumber, LatestIn, Published;
      res, n := SlotRetry, [];
      var tries := 0;
      first := 0;
      while tries < TRIES && res.SlotRetry?
        modifies this`clock
        invariant old(clock) <= clock && tries <= TRIES && (tries == 0 ==> res.SlotRetry?)
        invariant pos < Published(trace(clock))
        invariant tries > 0 ==> old(clock) < first <= clock && ReadAs(res, n, first)
      {
        LaterStill(clock, clock + 1);
        first := clock + 1;
        res, n, clock := ReadSlot(mac, trace, clock + 1, cursor, pos);
        LaterStill(first, clock);
        tries := tries + 1;
      }
      tried := tries;
    }

    lemma LaterStill(t: nat, t': nat)
      requires Honest(mac, trace) && t <= t' && pos < Published(trace(t))
      ensures pos < Published(trace(t'))
    {
      TraceBefore(mac, trace, t, t');
    }

    /**
     The verdict on the slot.  TAMPER is raised exactly when the last attempt found the slot unreadable and the
     writer, modulo 2^32, is fewer than sixteen notifications ahead; for an honest writer that takes a whole lap of
     the 32-bit numbers.
     */
    method Look() returns (e: Event, ghost res: SlotResult, ghost first: nat)
      requires Placed() && pos < Published(trace(clock))
      modifies this`clock
      ensures old(clock) < first <= clock && Width(e) == 1 && e.sequence == cursor && pos < Published(trace(clock))
      ensures e.Emitted? <==> res.SlotOk?
      ensures e.Tamper? <==> !res.SlotOk? && (Published(trace(clock)) - pos) % WRAP < SLOTS
      ensures e.Tamper? ==> pos + WRAP <= Published(trace(clock))
      ensures |trace(clock).history| < pos + WRAP ==> EntryHolds(e, pos, trace(clock))
      ensures e.Emitted? ==> |e.note| == CELLS && e.note[1] == cursor
      ensures e.Emitted? && LatestIn(trace(first), pos) == LatestIn(trace(clock), pos) ==>
                IsNumber(trace(clock), LatestIn(trace(first), pos), e.note)
    {
      hide Honest, Authentic, Republished, IsNumber, LatestIn;
      var r, n;
      ghost var tried;
      r, n, first, tried := Attempt();
      res := r;
      LaterStill(first, clock);
      if r.SlotOk? {
        e := Emitted(cursor, n, n[MAC_AT..] == mac(n[..MAC_AT]));
        if |trace(clock).history| < pos + WRAP {
          EmittedHolds(n, first);
        }
      } else {
        e := Blame();
      }
    }

    /** An unreadable slot: overwritten, or tampered with. */
    method Blame() returns (e: Event)
      requires Placed() && pos + SLOTS <= Published(trace(clock))
      modifies this`clock
      ensures clock == old(clock) + 1 && pos + SLOTS <= Published(trace(clock))
      ensures e == if (Published(trace(clock)) - pos) % WRAP < SLOTS then Tamper(cursor) else Overrun(cursor)
      ensures e.Tamper? ==> pos + WRAP <= Published(trace(clock))
    {
      hide Honest;
      ghost var before := clock;
      clock := clock + 1;
      TraceBefore(mac, trace, before, clock);
      var w2 := LoadIndex(mac, trace, clock);
      Sub32Numbers(Published(trace(clock)), pos);
      e := if Sub32(w2, cursor) > SLOTS - 1 then Overrun(cursor) else Tamper(cursor);
    }

    /** What the last attempt, whose first load was at `first`, is known to mean. */
    ghost predicate ReadAs(res: SlotResult, n: seq<nat>, first: nat)
      reads this
    {
      && first <= clock && |n| == CELLS && pos < Published(trace(first))
      && (res.SlotOk? ==> n[1] == cursor)
      && (!res.SlotOk? ==> pos + SLOTS <= Published(trace(clock)))
      && (res.SlotOk? && Authentic(mac, n) ==> Republished(trace(clock), pos, n))
      && (!res.SlotRetry? && LatestIn(trace(first), pos) == LatestIn(trace(clock), pos) ==>
            IsNumber(trace(clock), LatestIn(trace(first), pos), n))
    }

    lemma EmittedHolds(n: seq<nat>, first: nat)
      requires Placed() && ReadAs(SlotOk, n, first) && |trace(clock).history| < pos + WRAP
      ensures EntryHolds(Emitted(cursor, n, n[MAC_AT..] == mac(n[..MAC_AT])), pos, trace(clock))
    {
      TraceInv(mac, trace, clock);
      TraceInv(mac, trace, first);
      TraceBefore(mac, trace, first, clock);
      if Authentic(mac, n) {
        var k: nat :| pos <= k && k % WRAP == pos % WRAP && IsNumber(trace(clock), k, n);
        SameNumber(pos, k);
      } else {
        if LatestIn(trace(first), pos) == LatestIn(trace(clock), pos) {
          WholeIsAuthentic(mac, trace, clock, LatestIn(trace(first), pos), n);
        }
        ValidatedGrows(mac, trace(first), trace(clock));
        LatestGrows(trace(first), trace(clock), pos);
        AtLeast(trace(first), pos, pos);
        LappedBy(trace(clock), pos);
      }
    }

    /** The whole of one drain: the writer may store anything between any two of its loads. */
    method Drain()
      requires Placed()
      modifies this
      ensures Placed() && old(pos) <= pos && start == old(start) && old(clock) < clock
      ensures old(Books()) && |trace(clock).history| < old(pos) + WRAP ==> Books()
    {
      var w := CatchUp();
      ghost var target := Published(trace(clock));
      ghost var from := clock;
      var stop: bool := *;
      while cursor != w && !stop
        invariant Placed() && pos <= target && target - pos <= SLOTS && w == target % WRAP
        invariant old(pos) <= pos && start == old(start) && from <= clock && old(clock) < from
        invariant target == Published(trace(from))
        invariant old(Books()) && |trace(clock).history| < old(pos) + WRAP ==> Books()
        decreases target - pos
      {
        TraceBefore(mac, trace, from, clock);
        ghost var before := clock;
        TakeOne();
        TraceBefore(mac, trace, before, clock);
        stop := *;
      }
    }
  }

  lemma SameNumber(c: nat, n: nat)
    requires c <= n < c + WRAP && n % WRAP == c % WRAP
    ensures n == c
  {
  }

  lemma LappedBy(s: Sys, c: nat)
    requires c < LatestIn(s, c)
    ensures c + SLOTS < Validated(s)
  {
  }
}

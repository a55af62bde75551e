/** The cache-miss sampler: rates to levels to alerts with hysteresis, and the vote for the task behind them. */
module Pmu {
  import opened Vote

  const NONE := 0
  const WATCH := 1
  const CRITICAL := 2
  const CALM_WINDOWS := 3
  const SEC := 1_000_000_000
  const U32 := 0x1_0000_0000
  const U64 := 0x1_0000_0000_0000_0000

  function Max(a: nat, b: nat): nat { if a < b then b else a }

  // ----- Thresholds, writable at run time -----

  datatype Limits = Limits(warn: nat, crit: nat)

  /** The sum is taken in 32 bits. */
  function Thresholds(pWarn: nat, pCrit: nat): Limits {
    var w := Max(pWarn, 1);
    Limits(w, Max(pCrit, (w + 1) % U32))
  }

  /** "warn >= 1 and crit > warn, whatever was typed" holds of every setting but one: warn at its maximum. */
  lemma ThresholdsOrdered(pWarn: nat, pCrit: nat)
    requires pWarn < U32 && pCrit < U32
    ensures Thresholds(pWarn, pCrit).warn >= 1
    ensures Thresholds(pWarn, pCrit).crit > Thresholds(pWarn, pCrit).warn <==> pWarn < U32 - 1
  {
  }

  /** With that setting and crit = 0 a silent window is critical. */
  lemma SilentIsCritical()
    ensures LevelOf(0, Thresholds(U32 - 1, 0)) == CRITICAL
  {
  }

  function LevelOf(rate: nat, l: Limits): nat {
    if rate >= l.crit then CRITICAL else if rate >= l.warn then WATCH else NONE
  }

  lemma SilentIsQuiet(pWarn: nat, pCrit: nat)
    requires pWarn < U32 - 1 && pCrit < U32
    ensures LevelOf(0, Thresholds(pWarn, pCrit)) == NONE
  {
  }

  // ----- One event on one CPU -----

  datatype Cell = Cell(level: nat, calm: nat, lastAlert: nat)

  function Since(now: nat, past: nat): nat { (now - past) % U64 }

  predicate Alerts(c: Cell, lvl: nat, now: nat) {
    || (lvl > c.level && Since(now, c.lastAlert) >= SEC)
    || (lvl != NONE && lvl == c.level && Since(now, c.lastAlert) >= 10 * SEC)
  }

  function Sampled(c: Cell, lvl: nat, now: nat): Cell {
    if Alerts(c, lvl, now) then Cell(lvl, 0, now)
    else if lvl < c.level then
      if c.calm + 1 >= CALM_WINDOWS then c.(level := lvl, calm := 0) else c.(calm := c.calm + 1)
    else c.(calm := 0)
  }

  // ----- Every run of windows -----

  /** A window with its level, or the CPU coming online. */
  datatype Event = Window(lvl: nat, now: nat) | Online

  function Step(c: Cell, e: Event): Cell {
    match e
    case Window(lvl, now) => Sampled(c, lvl, now)
    case Online => Cell(NONE, 0, c.lastAlert)
  }

  function After(evs: seq<Event>): Cell {
    if evs == [] then Cell(NONE, 0, 0) else Step(After(evs[..|evs| - 1]), evs[|evs| - 1])
  }

  /** The event raised an alert. */
  predicate AlertAt(evs: seq<Event>, i: nat)
    requires i < |evs|
  {
    evs[i].Window? && Alerts(After(evs[..i]), evs[i].lvl, evs[i].now)
  }

  function Clock(evs: seq<Event>): nat {
    if evs == [] then 0
    else if evs[|evs| - 1].Window? then evs[|evs| - 1].now
    else Clock(evs[..|evs| - 1])
  }

  ghost predicate InOrder(evs: seq<Event>) {
    evs == [] || (InOrder(evs[..|evs| - 1]) && Clock(evs[..|evs| - 1]) <= Clock(evs) < U64)
  }

  /** The remembered time is that of the last alert. */
  lemma {:induction false} LastAlert(evs: seq<Event>)
    requires InOrder(evs)
    ensures After(evs).lastAlert <= Clock(evs)
    ensures forall i :: 0 <= i < |evs| && AlertAt(evs, i) ==> evs[i].now <= After(evs).lastAlert
  {
    if evs != [] {
      var before, n := evs[..|evs| - 1], |evs| - 1;
      LastAlert(before);
      forall i | 0 <= i < |evs| && AlertAt(evs, i)
        ensures evs[i].now <= After(evs).lastAlert
      {
        if i < n {
          Prefix(evs, i);
          assert AlertAt(before, i);
        }
      }
    }
  }

  lemma Prefix(evs: seq<Event>, i: nat)
    requires i < |evs| - 1
    ensures evs[..|evs| - 1][..i] == evs[..i]
  {
  }

  lemma {:induction false} OrderedPrefix(evs: seq<Event>, i: nat)
    requires InOrder(evs) && i <= |evs|
    ensures InOrder(evs[..i]) && Clock(evs[..i]) <= Clock(evs)
  {
    if i < |evs| {
      OrderedPrefix(evs[..|evs| - 1], i);
      assert evs[..|evs| - 1][..i] == evs[..i];
    } else {
      assert evs[..i] == evs;
    }
  }

  lemma AlertGap(c: Cell, lvl: nat, now: nat)
    requires Alerts(c, lvl, now) && c.lastAlert <= now < U64
    ensures now - c.lastAlert >= SEC
  {
  }

  lemma ClockAt(evs: seq<Event>, j: nat)
    requires InOrder(evs) && j < |evs| && evs[j].Window?
    ensures InOrder(evs[..j]) && Clock(evs[..j]) <= evs[j].now < U64
  {
    OrderedPrefix(evs, j + 1);
    assert evs[..j + 1][..j] == evs[..j];
  }

  /** Two alerts of one event on one CPU are at least a second apart. */
  lemma AlertsSpaced(evs: seq<Event>, i: nat, j: nat)
    requires InOrder(evs) && i < j < |evs| && AlertAt(evs, i) && AlertAt(evs, j)
    ensures evs[j].now - evs[i].now >= SEC
  {
    hide After, InOrder, Clock, Alerts;
    var before := evs[..j];
    ClockAt(evs, j);
    LastAlert(before);
    assert before[..i] == evs[..i] && before[i] == evs[i];
    assert AlertAt(before, i);
    AlertGap(After(before), evs[j].lvl, evs[j].now);
  }

  /** The level rises only together with an alert. */
  lemma RisesWithAlert(evs: seq<Event>, i: nat)
    requires i < |evs| && After(evs[..i + 1]).level > After(evs[..i]).level
    ensures AlertAt(evs, i)
  {
    assert evs[..i + 1][..i] == evs[..i];
  }

  /** The last n windows were below the level, and the level was the same all along. */
  ghost predicate LowerFor(evs: seq<Event>, n: nat) {
    && n <= |evs|
    && forall i :: |evs| - n <= i < |evs| ==>
         evs[i].Window? && evs[i].lvl < After(evs).level && After(evs[..i]).level == After(evs).level
  }

  /** The calm counter counts the consecutive lower windows. */
  lemma {:induction false} CalmCounts(evs: seq<Event>)
    ensures After(evs).calm < CALM_WINDOWS && LowerFor(evs, After(evs).calm)
  {
    if evs != [] {
      var n := |evs| - 1;
      var before := evs[..n];
      CalmCounts(before);
      var c, c' := After(before), After(evs);
      if c'.calm > 0 {
        assert c'.calm == c.calm + 1 && c'.level == c.level;
        forall i | |evs| - c'.calm <= i < |evs|
          ensures evs[i].Window? && evs[i].lvl < c'.level && After(evs[..i]).level == c'.level
        {
          if i < n {
            Prefix(evs, i);
            assert before[i] == evs[i];
          }
        }
      }
    }
  }

  /** Without an alert the level falls only at the third of three consecutive lower windows. */
  lemma FallsAfterThree(evs: seq<Event>, i: nat)
    requires i < |evs| && evs[i].Window? && After(evs[..i + 1]).level < After(evs[..i]).level
    ensures i >= 2 && !AlertAt(evs, i)
    ensures forall j :: i - 2 <= j <= i ==>
              evs[j].Window? && evs[j].lvl < After(evs[..i]).level && After(evs[..j]).level == After(evs[..i]).level
  {
    var before := evs[..i];
    assert evs[..i + 1][..i] == before;
    CalmCounts(before);
    forall j | i - 2 <= j <= i
      ensures evs[j].Window? && evs[j].lvl < After(before).level && After(evs[..j]).level == After(before).level
    {
      if j < i {
        assert before[j] == evs[j] && before[..j] == evs[..j];
      }
    }
  }

  /** Nothing is raised from i to j, where every window is above the level there was. */
  ghost predicate Waiting(evs: seq<Event>, i: nat, j: nat) {
    && i <= j <= |evs|
    && forall k :: i <= k < j ==> evs[k].Window? && evs[k].lvl > After(evs[..i]).level && !AlertAt(evs, k)
  }

  lemma {:induction false} NothingChanges(evs: seq<Event>, i: nat, j: nat)
    requires Waiting(evs, i, j)
    ensures After(evs[..j]).level == After(evs[..i]).level && After(evs[..j]).lastAlert == After(evs[..i]).lastAlert
    decreases j
  {
    if i < j {
      NothingChanges(evs, i, j - 1);
      assert evs[..j][..j - 1] == evs[..j - 1];
    }
  }

  /**
   An escalation is never lost, only deferred: while the level asked for stays above the level there is, the first
   window at least a second after the last alert raises it.
   */
  lemma Deferred(evs: seq<Event>, i: nat, j: nat)
    requires j < |evs| && Waiting(evs, i, j) && evs[j].Window? && evs[j].lvl > After(evs[..i]).level
    requires After(evs[..i]).lastAlert + 1_000_000_000 <= evs[j].now < U64
    ensures AlertAt(evs, j) && After(evs[..j + 1]) == Cell(evs[j].lvl, 0, evs[j].now)
  {
    NothingChanges(evs, i, j);
    assert evs[..j + 1][..j] == evs[..j];
  }

  /** While a condition lasts it is reported again after ten seconds. */
  lemma RepeatsWhileItLasts(evs: seq<Event>, i: nat)
    requires i < |evs| && evs[i].Window? && evs[i].lvl == After(evs[..i]).level > 0 && After(evs[..i]).lastAlert <= evs[i].now < U64
    ensures AlertAt(evs, i) <==> evs[i].now - After(evs[..i]).lastAlert >= 10_000_000_000
  {
  }

  // ----- The sampler -----

  /** What one CPU's event contributes to a window. */
  datatype Input = Input(online: bool, active: bool, overflows: nat)

  /** Cell 2 * cpu + kind, the level, the task blamed for it, the rate and the time. */
  datatype Alert = Alert(cell: nat, level: nat, tgid: int, rate: nat, at: nat)

  datatype Snapshot = Snapshot(cells: seq<Cell>, ballots: seq<Ballot>, alerts: seq<Alert>)

  function RateOf(n: nat, denomMs: nat): nat
    requires denomMs > 0
  {
    n * 1000 % U64 / denomMs
  }

  /** A rate reaches a threshold exactly if the overflows, a thousandfold, reach it times the milliseconds. */
  lemma RateReaches(n: nat, denomMs: nat, limit: nat)
    requires denomMs > 0 && n * 1000 < U64
    ensures RateOf(n, denomMs) >= limit <==> n * 1000 >= limit * denomMs
  {
    var x, q := n * 1000, n * 1000 / denomMs;
    assert x == q * denomMs + x % denomMs;
    if q >= limit {
      Scaled(limit, q, denomMs);
    } else {
      Scaled(q + 1, limit, denomMs);
    }
  }

  lemma Scaled(a: nat, b: nat, d: nat)
    requires a <= b
    ensures a * d <= b * d
  {
  }

  /** The level of a window in terms of the settings. */
  lemma LevelExactly(n: nat, denomMs: nat, pWarn: nat, pCrit: nat)
    requires denomMs > 0 && n * 1000 < U64 && pWarn < U32 - 1
    ensures var warn := if pWarn < 1 then 1 else pWarn;
            var crit := if pCrit < warn + 1 then warn + 1 else pCrit;
            LevelOf(RateOf(n, denomMs), Thresholds(pWarn, pCrit)) ==
            if n * 1000 >= crit * denomMs then 2 else if n * 1000 >= warn * denomMs then 1 else 0
  {
    var l := Thresholds(pWarn, pCrit);
    hide RateOf;
    RateReaches(n, denomMs, l.warn);
    RateReaches(n, denomMs, l.crit);
  }

  function Denom(now: nat, last: nat, windowMs: nat): (d: nat)
    ensures d >= 100
  {
    Max(Max(Since(now, last) / 1_000_000, 1), Max(windowMs, 100))
  }

  /** The hysteresis of one cell, and with an alert the vote of its CPU taken and cleared. */
  function Looked(s: Snapshot, k: nat, rate: nat, lvl: nat, now: nat): Snapshot
    requires k < |s.cells| && k / 2 < |s.ballots|
  {
    var c, b := s.cells[k], s.ballots[k / 2];
    var s' := s.(cells := s.cells[k := Sampled(c, lvl, now)]);
    if Alerts(c, lvl, now)
    then s'.(ballots := s.ballots[k / 2 := Ballot(0, 0)],
             alerts := s.alerts + [Alert(k, lvl, if b.cand > 0 then b.cand else 0, rate, now)])
    else s'
  }

  /** The first n cells in order: the active events of online CPUs. */
  function Swept(s: Snapshot, input: seq<Input>, n: nat, now: nat, d: nat, l: Limits): (s': Snapshot)
    requires n <= |input| == |s.cells| == 2 * |s.ballots| && d > 0
    ensures |s'.cells| == |s.cells| && |s'.ballots| == |s.ballots|
  {
    if n == 0 then s
    else
      var p := Swept(s, input, n - 1, now, d, l);
      if input[n - 1].online && input[n - 1].active then
        var rate := RateOf(input[n - 1].overflows, d);
        Looked(p, n - 1, rate, LevelOf(rate, l), now)
      else p
  }

  /** Every cell takes one step of its own, whatever the others do. */
  lemma {:induction false} SweptCells(s: Snapshot, input: seq<Input>, n: nat, now: nat, d: nat, l: Limits, i: nat)
    requires n <= |input| == |s.cells| == 2 * |s.ballots| && d > 0 && i < |s.cells|
    ensures Swept(s, input, n, now, d, l).cells[i] ==
            if i < n && input[i].online && input[i].active
            then Sampled(s.cells[i], LevelOf(RateOf(input[i].overflows, d), l), now) else s.cells[i]
  {
    hide Sampled, Alerts, RateOf, LevelOf;
    if n > 0 {
      SweptCells(s, input, n - 1, now, d, l, i);
    }
  }

  /** A CPU that comes online starts calm, without a vote; the time of its last alert stays. */
  function CameUp(s: Snapshot, cpu: nat): Snapshot
    requires cpu < |s.ballots| && |s.cells| == 2 * |s.ballots|
  {
    s.(cells := seq(|s.cells|, i requires 0 <= i < |s.cells| =>
                  if i / 2 == cpu then Cell(NONE, 0, s.cells[i].lastAlert) else s.cells[i]),
       ballots := s.ballots[cpu := Ballot(0, 0)])
  }

  class Sampler {
    const ncpu: nat
    const cells: array<Cell>
    const ballots: array<Ballot>
    const crit: array<bool>
    var last: nat
    var alerts: seq<Alert>

    ghost predicate Valid()
      reads this, cells, ballots, crit
    {
      cells.Length == 2 * ncpu && ballots.Length == ncpu && crit.Length == ncpu
    }

    ghost function Now(): Snapshot
      reads this, cells, ballots
    {
      Snapshot(cells[..], ballots[..], alerts)
    }

    constructor (ncpu: nat)
      ensures Valid() && this.ncpu == ncpu && fresh(cells) && fresh(ballots) && fresh(crit) && alerts == []
      ensures forall i :: 0 <= i < 2 * ncpu ==> cells[i] == After([])
    {
      this.ncpu, last, alerts := ncpu, 0, [];
      cells := new Cell[2 * ncpu](_ => Cell(NONE, 0, 0));
      ballots := new Ballot[ncpu](_ => Ballot(0, 0));
      crit := new bool[ncpu](_ => false);
    }

    /** One event of one CPU. */
    method SampleCell(k: nat, rate: nat, lvl: nat, now: nat)
      requires Valid() && k < 2 * ncpu
      modifies this`alerts, cells, ballots
      ensures Now() == Looked(old(Now()), k, rate, lvl, now)
      ensures forall i :: 0 <= i < 2 * ncpu && i != k ==> cells[i] == old(cells[i])
      ensures alerts == old(alerts) ||
              var cand := old(ballots[k / 2].cand);
              && alerts == old(alerts) + [Alert(k, lvl, if cand > 0 then cand else 0, rate, now)]
              && ballots[k / 2] == Ballot(0, 0) && cells[k] == Cell(lvl, 0, now)
    {
      var c := cells[k];
      if (lvl > c.level && Since(now, c.lastAlert) >= SEC) ||
         (lvl != NONE && lvl == c.level && Since(now, c.lastAlert) >= 10 * SEC) {
        var tgid := ballots[k / 2].cand;
        ballots[k / 2] := ballots[k / 2].(cand := 0);
        ballots[k / 2] := ballots[k / 2].(cnt := 0);
        cells[k] := Cell(lvl, 0, now);
        alerts := alerts + [Alert(k, lvl, if tgid > 0 then tgid else 0, rate, now)];
      } else if lvl < c.level {
        cells[k] := c.(calm := c.calm + 1);
        if cells[k].calm >= CALM_WINDOWS {
          cells[k] := c.(level := lvl, calm := 0);
        }
      } else {
        cells[k] := c.(calm := 0);
      }
    }

    /** A CPU comes online. */
    method CpuOnline(cpu: nat)
      requires Valid() && cpu < ncpu
      modifies cells, ballots
      ensures Valid() && Now() == CameUp(old(Now()), cpu)
    {
      cells[2 * cpu] := Cell(NONE, 0, cells[2 * cpu].lastAlert);
      cells[2 * cpu + 1] := Cell(NONE, 0, cells[2 * cpu + 1].lastAlert);
      ballots[cpu] := Ballot(0, 0);
    }

    /** A window: every active event of every online CPU in order, then each such CPU's critical mark. */
    method Sample(input: seq<Input>, now: nat, windowMs: nat, pWarn: nat, pCrit: nat)
      requires Valid() && |input| == 2 * ncpu && forall c :: 0 <= c < ncpu ==> input[2 * c].online == input[2 * c + 1].online
      modifies this, cells, ballots, crit
      ensures Valid() && last == now
      ensures Now() == Swept(old(Now()), input, 2 * ncpu, now, Denom(now, old(last), windowMs), Thresholds(pWarn, pCrit))
      ensures forall c :: 0 <= c < ncpu && input[2 * c].online ==> crit[c] == AnyCritical(cells[..], input, c)
    {
      hide Looked, Denom, Thresholds;
      ghost var s := Now();
      var d := Denom(now, last, windowMs);
      var l := Thresholds(pWarn, pCrit);
      last := now;
      var cpu := 0;
      while cpu < ncpu
        invariant cpu <= ncpu && Valid() && last == now && Now() == Swept(s, input, 2 * cpu, now, d, l)
        invariant forall c :: 0 <= c < cpu && input[2 * c].online ==> crit[c] == AnyCritical(cells[..], input, c)
      {
        ghost var before := cells[..];
        if input[2 * cpu].online {
          SampleCpu(cpu, input, now, d, l, s);
        }
        MarksStay(s, input, cpu, now, d, l);
        cpu := cpu + 1;
      }
    }

    method SampleCpu(cpu: nat, input: seq<Input>, now: nat, d: nat, l: Limits, ghost s: Snapshot)
      requires Valid() && cpu < ncpu && |input| == |s.cells| == 2 * ncpu && |s.ballots| == ncpu && d > 0
      requires input[2 * cpu].online && input[2 * cpu + 1].online && Now() == Swept(s, input, 2 * cpu, now, d, l)
      modifies this`alerts, cells, ballots, crit
      ensures Valid() && Now() == Swept(s, input, 2 * cpu + 2, now, d, l)
      ensures forall c :: 0 <= c < ncpu && c != cpu ==> crit[c] == old(crit[c])
      ensures crit[cpu] == AnyCritical(cells[..], input, cpu)
    {
      hide Looked, RateOf, LevelOf, Swept;
      var any := false;
      var kind := 0;
      while kind < 2
        invariant kind <= 2 && Valid() && Now() == Swept(s, input, 2 * cpu + kind, now, d, l)
        invariant forall c :: 0 <= c < ncpu ==> crit[c] == old(crit[c])
        invariant any <==> exists k :: 2 * cpu <= k < 2 * cpu + kind && input[k].active && cells[k].level >= CRITICAL
      {
        var k := 2 * cpu + kind;
        OnlyOneCell(s, input, k, now, d, l);
        ghost var before := cells[..];
        if input[k].active {
          SweptNext(s, input, k, now, d, l);
          var rate := RateOf(input[k].overflows, d);
          SampleCell(k, rate, LevelOf(rate, l), now);
          any := any || cells[k].level >= CRITICAL;
        }
        assert forall i :: 0 <= i < k ==> cells[i] == cells[..][i] == before[i];
        kind := kind + 1;
      }
      crit[cpu] := any;
    }

    /** The online CPUs none of whose core partners is critical: the ones to relax. */
    method Coolers(online: seq<bool>, siblings: nat -> seq<nat>) returns (cool: seq<nat>)
      requires Valid() && |online| == ncpu && forall c: nat, s :: s in siblings(c) ==> s < ncpu
      ensures forall c: nat :: c in cool <==> c < ncpu && online[c] && AllCalm(crit[..], siblings(c))
    {
      cool := [];
      var cpu: nat := 0;
      while cpu < ncpu
        invariant cpu <= ncpu
        invariant forall c: nat :: c in cool <==> c < cpu && online[c] && AllCalm(crit[..], siblings(c))
      {
        var sibs := siblings(cpu);
        var hot, j := false, 0;
        while j < |sibs|
          invariant j <= |sibs| && (hot <==> !AllCalm(crit[..], sibs[..j]))
        {
          assert sibs[j] in siblings(cpu);
          assert sibs[..j + 1] == sibs[..j] + [sibs[j]];
          hot := hot || crit[sibs[j]];
          j := j + 1;
        }
        assert sibs[..j] == sibs;
        if online[cpu] && !hot {
          cool := cool + [cpu];
        }
        cpu := cpu + 1;
      }
    }
  }

  /** None of the CPUs is marked critical. */
  ghost predicate AllCalm(crit: seq<bool>, cpus: seq<nat>) {
    forall c :: c in cpus && c < |crit| ==> !crit[c]
  }

  lemma SweptNext(s: Snapshot, input: seq<Input>, k: nat, now: nat, d: nat, l: Limits)
    requires k < |input| == |s.cells| == 2 * |s.ballots| && d > 0 && input[k].online && input[k].active
    ensures var rate := RateOf(input[k].overflows, d);
            Swept(s, input, k + 1, now, d, l) == Looked(Swept(s, input, k, now, d, l), k, rate, LevelOf(rate, l), now)
  {
    hide Looked, RateOf, LevelOf;
  }

  /** The step of one cell leaves the cells before it alone. */
  lemma OnlyOneCell(s: Snapshot, input: seq<Input>, k: nat, now: nat, d: nat, l: Limits)
    requires k < |input| == |s.cells| == 2 * |s.ballots| && d > 0
    ensures forall i :: 0 <= i < k ==> Swept(s, input, k + 1, now, d, l).cells[i] == Swept(s, input, k, now, d, l).cells[i]
    ensures !(input[k].online && input[k].active) ==> Swept(s, input, k + 1, now, d, l) == Swept(s, input, k, now, d, l)
  {
    hide Sampled, Alerts;
  }

  /** The cells of the CPUs already done do not change when the next one is, so their marks stay right. */
  lemma MarksStay(s: Snapshot, input: seq<Input>, cpu: nat, now: nat, d: nat, l: Limits)
    requires 2 * cpu + 1 < |input| == |s.cells| == 2 * |s.ballots| && d > 0
    requires input[2 * cpu].online == input[2 * cpu + 1].online
    ensures var a, b := Swept(s, input, 2 * cpu, now, d, l).cells, Swept(s, input, 2 * cpu + 2, now, d, l).cells;
            forall c :: 0 <= c < cpu ==> AnyCritical(a, input, c) == AnyCritical(b, input, c)
    ensures !input[2 * cpu].online ==> Swept(s, input, 2 * cpu + 2, now, d, l) == Swept(s, input, 2 * cpu, now, d, l)
  {
    OnlyOneCell(s, input, 2 * cpu, now, d, l);
    OnlyOneCell(s, input, 2 * cpu + 1, now, d, l);
    hide Swept;
  }

  predicate AnyCritical(cells: seq<Cell>, input: seq<Input>, cpu: nat)
    requires 2 * cpu + 1 < |cells| && |input| == |cells|
  {
    exists k :: 2 * cpu <= k <= 2 * cpu + 1 && input[k].active && cells[k].level >= CRITICAL
  }
}

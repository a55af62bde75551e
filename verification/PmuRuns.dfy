/** Whole runs of the sampler: any sequence of windows, with CPUs coming online in between. */
module PmuRuns {
  import V = Vote
  import opened Pmu
  import R = Response
  import Route = ResponseRoute

  datatype Move = Pass(input: seq<Input>, now: nat, windowMs: nat, pWarn: nat, pCrit: nat) | CpuUp(cpu: nat)

  /** The sampler's memory and the time of its last window. */
  datatype State = State(snap: Snapshot, last: nat)

  predicate Fits(ncpu: nat, m: Move) {
    if m.Pass? then |m.input| == 2 * ncpu else m.cpu < ncpu
  }

  predicate AllFit(ncpu: nat, ms: seq<Move>) {
    forall i :: 0 <= i < |ms| ==> Fits(ncpu, ms[i])
  }

  predicate Sized(ncpu: nat, s: Snapshot) {
    |s.cells| == 2 * ncpu && |s.ballots| == ncpu
  }

  function Moved(ncpu: nat, s: State, m: Move): (s': State)
    requires Fits(ncpu, m) && Sized(ncpu, s.snap)
    ensures Sized(ncpu, s'.snap)
  {
    match m
    case Pass(input, now, windowMs, pWarn, pCrit) =>
      State(Swept(s.snap, input, 2 * ncpu, now, Denom(now, s.last, windowMs), Thresholds(pWarn, pCrit)), now)
    case CpuUp(cpu) => s.(snap := CameUp(s.snap, cpu))
  }

  function Start(ncpu: nat): (s: State)
    ensures Sized(ncpu, s.snap)
  {
    State(Snapshot(seq(2 * ncpu, _ => Cell(NONE, 0, 0)), seq(ncpu, _ => V.Ballot(0, 0)), []), 0)
  }

  function Ran(ncpu: nat, ms: seq<Move>): (s: State)
    requires AllFit(ncpu, ms)
    ensures Sized(ncpu, s.snap)
  {
    if ms == [] then Start(ncpu) else Moved(ncpu, Ran(ncpu, ms[..|ms| - 1]), ms[|ms| - 1])
  }

  // ----- Each cell lives its own events -----

  /** What a move is for cell i. */
  function SeenIn(s: State, m: Move, i: nat): seq<Event>
    requires m.Pass? ==> i < |m.input|
  {
    match m
    case Pass(input, now, windowMs, pWarn, pCrit) =>
      if input[i].online && input[i].active then
        var rate := RateOf(input[i].overflows, Denom(now, s.last, windowMs));
        [Window(LevelOf(rate, Thresholds(pWarn, pCrit)), now)]
      else []
    case CpuUp(cpu) => if cpu == i / 2 then [Online] else []
  }

  function Seen(ncpu: nat, ms: seq<Move>, i: nat): seq<Event>
    requires AllFit(ncpu, ms) && i < 2 * ncpu
  {
    if ms == [] then []
    else Seen(ncpu, ms[..|ms| - 1], i) + SeenIn(Ran(ncpu, ms[..|ms| - 1]), ms[|ms| - 1], i)
  }

  lemma AfterMore(evs: seq<Event>, more: seq<Event>)
    requires |more| <= 1
    ensures After(evs + more) == if more == [] then After(evs) else Step(After(evs), more[0])
  {
    if more == [] {
      assert evs + more == evs;
    } else {
      assert (evs + more)[..|evs|] == evs;
    }
  }

  lemma MovedCell(ncpu: nat, s: State, m: Move, i: nat)
    requires Fits(ncpu, m) && Sized(ncpu, s.snap) && i < 2 * ncpu
    ensures var more := SeenIn(s, m, i);
            |more| <= 1 && Moved(ncpu, s, m).snap.cells[i] == if more == [] then s.snap.cells[i] else Step(s.snap.cells[i], more[0])
  {
    hide Swept, Sampled, Denom, Thresholds, RateOf, LevelOf;
    if m.Pass? {
      SweptCells(s.snap, m.input, 2 * ncpu, m.now, Denom(m.now, s.last, m.windowMs), Thresholds(m.pWarn, m.pCrit), i);
    }
  }

  /** Over every run each cell is what its own windows and its CPU's coming online make of it. */
  lemma {:induction false} CellsLive(ncpu: nat, ms: seq<Move>, i: nat)
    requires AllFit(ncpu, ms) && i < 2 * ncpu
    ensures Ran(ncpu, ms).snap.cells[i] == After(Seen(ncpu, ms, i))
  {
    if ms != [] {
      var before, m := ms[..|ms| - 1], ms[|ms| - 1];
      CellsLive(ncpu, before, i);
      MovedCell(ncpu, Ran(ncpu, before), m, i);
      hide Moved, SeenIn, After, Step;
      AfterMore(Seen(ncpu, before, i), SeenIn(Ran(ncpu, before), m, i));
    } else {
      assert After([]) == Cell(NONE, 0, 0);
    }
  }

  // ----- The alerts of a run -----

  function Time(ms: seq<Move>): nat {
    if ms == [] then 0
    else if ms[|ms| - 1].Pass? then ms[|ms| - 1].now
    else Time(ms[..|ms| - 1])
  }

  /** The windows come in the order of a clock that fits 64 bits. */
  ghost predicate Timely(ms: seq<Move>) {
    ms == [] || (Timely(ms[..|ms| - 1]) && Time(ms[..|ms| - 1]) <= Time(ms) < U64)
  }

  ghost predicate Apart(alerts: seq<Alert>) {
    forall p, q :: 0 <= p < q < |alerts| && alerts[p].cell == alerts[q].cell ==> alerts[q].at - alerts[p].at >= SEC
  }

  /** No alert is later than its cell remembers, nor that later than now; alerts of a cell are a second apart. */
  ghost predicate Spaced(s: Snapshot, now: nat) {
    && (forall p :: 0 <= p < |s.alerts| ==>
          s.alerts[p].cell < |s.cells| && s.alerts[p].at <= s.cells[s.alerts[p].cell].lastAlert)
    && (forall i :: 0 <= i < |s.cells| ==> s.cells[i].lastAlert <= now)
    && Apart(s.alerts)
  }

  lemma LookedSpaced(s: Snapshot, k: nat, rate: nat, lvl: nat, now: nat)
    requires Spaced(s, now) && now < U64 && k < |s.cells| && k / 2 < |s.ballots|
    ensures Spaced(Looked(s, k, rate, lvl, now), now)
  {
    if Alerts(s.cells[k], lvl, now) {
      AlertGap(s.cells[k], lvl, now);
    }
    hide Alerts;
  }

  lemma {:induction false} SweptSpaced(s: Snapshot, input: seq<Input>, n: nat, now: nat, d: nat, l: Limits)
    requires n <= |input| == |s.cells| == 2 * |s.ballots| && d > 0 && Spaced(s, now) && now < U64
    ensures Spaced(Swept(s, input, n, now, d, l), now)
  {
    hide Spaced, Looked, RateOf, LevelOf;
    if n > 0 {
      SweptSpaced(s, input, n - 1, now, d, l);
      var rate := RateOf(input[n - 1].overflows, d);
      LookedSpaced(Swept(s, input, n - 1, now, d, l), n - 1, rate, LevelOf(rate, l), now);
    }
  }

  lemma SpacedLater(s: Snapshot, now: nat, later: nat)
    requires Spaced(s, now) && now <= later
    ensures Spaced(s, later)
  {
  }

  lemma CameUpSpaced(s: Snapshot, cpu: nat, now: nat)
    requires Spaced(s, now) && cpu < |s.ballots| && |s.cells| == 2 * |s.ballots|
    ensures Spaced(CameUp(s, cpu), now)
  {
  }

  lemma {:induction false} RanSpaced(ncpu: nat, ms: seq<Move>)
    requires AllFit(ncpu, ms) && Timely(ms)
    ensures Spaced(Ran(ncpu, ms).snap, Time(ms))
  {
    if ms != [] {
      var before, m := ms[..|ms| - 1], ms[|ms| - 1];
      var s := Ran(ncpu, before);
      RanSpaced(ncpu, before);
      hide Spaced, Swept, CameUp, Denom, Thresholds;
      match m
      case Pass(input, now, windowMs, pWarn, pCrit) =>
        SpacedLater(s.snap, Time(before), now);
        SweptSpaced(s.snap, input, 2 * ncpu, now, Denom(now, s.last, windowMs), Thresholds(pWarn, pCrit));
      case CpuUp(cpu) => CameUpSpaced(s.snap, cpu, Time(before));
    }
  }

  /** Over every run, two alerts the sampler raised for one event of one CPU are at least a second apart. */
  lemma RaisedApart(ncpu: nat, ms: seq<Move>)
    requires AllFit(ncpu, ms) && Timely(ms)
    ensures Apart(Ran(ncpu, ms).snap.alerts)
  {
    RanSpaced(ncpu, ms);
  }

  // ----- What becomes of an alert -----

  /** The report of an alert: which cache, the task, and the CPU beside the rate. */
  function Reported(a: Alert): R.Alert
    requires a.tgid >= 0
  {
    R.Alert(if a.cell % 2 == 0 then R.PMU_L1D else R.PMU_L2, a.level, a.tgid, a.cell / 2 * U32 + a.rate % U32)
  }

  /** A critical alert escalates its own CPU and the online CPUs of its core, and asks for ELEVATED; a lesser one nothing. */
  lemma ReportedActs(a: Alert, topo: R.Topology, c: nat)
    requires a.tgid >= 0
    ensures Route.OnCore(Reported(a), topo, c) <==>
            && a.level >= 2 && a.cell / 2 in topo.online
            && (c == a.cell / 2 || (c in topo.siblings(a.cell / 2) && c in topo.online))
    ensures Route.PostureFor(Reported(a)) == if a.level >= 2 then 1 else 0
  {
    var cpu, rate := a.cell / 2, a.rate % U32;
    assert (cpu * U32 + rate) / U32 == cpu;
  }
}

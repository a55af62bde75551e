/**
 The graduated response as a machine of interleaved threads.  A thread's program is the list of operations its
 call still has to do; a call that makes another call puts that call's operations in front.  The posture lock is
 held by one thread at a time; the guarded table is changed in one step, because its lock covers the whole change.
 */
module Response {
  import opened Guard

  const INFO := 0
  const WATCH := 1
  const CRITICAL := 2

  const PMU_L1D := 0x01
  const PMU_L2 := 0x02
  const KBD_FILTER := 0x10
  const DMA := 0x11
  const PCI := 0x12
  const KBD_NEUTRALIZED := 0x13
  const BME_DISABLED := 0x15
  const IDT_HOOK := 0x20
  const DISPATCH_HOOK := 0x21
  const TEXT_PATCH := 0x22
  const CTRL_REG := 0x23
  const MODULE_LOADED := 0x24
  const VULN_DRIVER := 0x25
  const DRIVER_BLOCKED := 0x26
  const STATE_CORRUPT := 0x30
  const FAILSAFE_ENTERED := 0x31
  const POSTURE_CHANGED := 0x32

  const WHY_DECAY := 2
  const WHY_OPERATOR := 3

  const SEC := 1_000_000_000
  const MAX_DECAY_S := 1_000_000
  const U32 := 0x1_0000_0000
  const U64 := 0x1_0000_0000_0000_0000
  /** Kernel times are signed 64-bit nanoseconds. */
  const KTIME := 0x8000_0000_0000_0000

  datatype Alert = Alert(code: nat, level: nat, p1: nat, p2: nat)

  datatype Params = Params(enforce: bool, autoEnforce: bool, maxPosture: nat, decayS: nat)

  function Min(a: nat, b: nat): nat { if a < b then a else b }

  function Cap(p: Params): nat { Min(p.maxPosture, FAILSAFE) }

  predicate Enforcing(p: Params, posture: nat) {
    p.enforce || (p.autoEnforce && posture >= HIGH)
  }

  datatype Op =
    | Report(a: Alert)
    | Escalate(cpu: nat)
    | RaiseUpTo(target: nat, trigger: nat)
    | Raise(target: nat, trigger: nat)
    | AfterUp(target: nat)
    | Operate(target: nat)
    | DecayDue
    | Decay(secs: nat)
    | Online(cpu: nat, probe: Probe)
    | Sample(cpu: nat)
    | Relax(cpu: nat)
    | Coming(np: (nat, nat), denied: bool, unexpected: bool)
    | Decide(np: (nat, nat), denied: bool)
    | Block(np: (nat, nat), denied: bool)
    | Refuse
    | Admit(denied: bool)

  // ----- The event router -----

  /** The posture an alert asks for; NORMAL when it asks for none. */
  function Wanted(code: nat, level: nat): nat {
    if code == PMU_L1D || code == PMU_L2 then (if level >= CRITICAL then ELEVATED else NORMAL)
    else if code in {DMA, PCI, KBD_FILTER, KBD_NEUTRALIZED, BME_DISABLED} then ELEVATED
    else if code == MODULE_LOADED then (if level >= WATCH then ELEVATED else NORMAL)
    else if code == VULN_DRIVER then (if level >= CRITICAL then HIGH else ELEVATED)
    else if code == DRIVER_BLOCKED then (if level >= CRITICAL then ELEVATED else NORMAL)
    else if code == IDT_HOOK || code == CTRL_REG then (if level >= CRITICAL then HIGH else NORMAL)
    else if code == TEXT_PATCH || code == DISPATCH_HOOK then (if level >= CRITICAL then FAILSAFE else NORMAL)
    else if code == STATE_CORRUPT then FAILSAFE
    else NORMAL
  }

  /** Which CPUs are up, and which share a core with a CPU. */
  datatype Topology = Topology(online: set<nat>, siblings: nat -> seq<nat>)

  function Siblings(cpu: nat, sibs: seq<nat>, online: set<nat>): seq<Op> {
    if sibs == [] then []
    else (if sibs[0] != cpu && sibs[0] in online then [Escalate(sibs[0])] else []) + Siblings(cpu, sibs[1..], online)
  }

  function Escalations(a: Alert, topo: Topology): seq<Op> {
    var cpu := a.p2 / U32;
    if (a.code == PMU_L1D || a.code == PMU_L2) && a.level >= CRITICAL && cpu in topo.online
    then [Escalate(cpu)] + Siblings(cpu, topo.siblings(cpu), topo.online)
    else []
  }

  function Dispatched(a: Alert, topo: Topology): seq<Op> {
    Escalations(a, topo) + if Wanted(a.code, a.level) > NORMAL then [RaiseUpTo(Wanted(a.code, a.level), a.code)] else []
  }

  // ----- The machine -----

  datatype Why = Auto | Operator | Quiet(secs: nat, at: nat)

  /** Where the holder of the posture lock is. */
  datatype Section = Apply(was: nat, target: nat, why: Why) | Enter(target: nat, why: Why) | Release(why: Why)

  datatype Lock = Free | Held(tid: nat, sec: Section)

  datatype Pos = Pos(ready: bool, untrusted: bool, triggerMono: nat, trigger: nat, entered: seq<nat>, timer: bool)

  datatype Gate = Gate(denyHits: nat, lockHits: nat, blocked: nat, refused: nat, admitted: nat)

  /** History: counted triggers and operator steps with their times, and the changes of posture. */
  datatype Event = Counted(at: nat) | Changed(was: nat, target: nat, why: Why)

  /** `sealed` is the table the stored digest belongs to; `hashFailed` says that the last section could not be hashed. */
  datatype Sys = Sys(table: Table, sealed: Table, hashFailed: bool, lock: Lock, pos: Pos, params: Params,
                     failFlag: bool, clock: nat, sent: seq<Alert>, gate: Gate, entries: nat, hist: seq<Event>,
                     progs: seq<seq<Op>>)

  /** What the surroundings contribute to a step. */
  datatype Env = Env(now: nat, hashed: bool, cool: bool, topo: Topology)

  /** A critical section of the guard lock: the new table, and its digest if that could be computed. */
  function Guarded(s: Sys, t: Table, hashed: bool): Sys {
    s.(table := t, sealed := if hashed then t else s.sealed, hashFailed := !hashed)
  }

  function Armed(s: Sys): bool {
    s.pos.timer || (s.pos.ready && Min(s.params.decayS, MAX_DECAY_S) > 0 && s.table.posture == ELEVATED)
  }

  /** One step of the thread that holds the posture lock. */
  function SectionStep(s: Sys, env: Env): Sys
    requires s.lock.Held? && |s.pos.entered| == POSTURES
    requires s.lock.sec.Enter? ==> s.lock.sec.target < POSTURES
  {
    match s.lock.sec
    case Apply(was, target, why) =>
      Guarded(s, WithPosture(s.table, target), env.hashed)
      .(lock := Held(s.lock.tid, Enter(target, why)), hist := s.hist + [Changed(was, target, why)],
        entries := s.entries + if target == FAILSAFE then 1 else 0)
    case Enter(target, why) =>
      s.(lock := Held(s.lock.tid, Release(why)), failFlag := s.failFlag && target == FAILSAFE,
         pos := s.pos.(entered := s.pos.entered[target := s.pos.entered[target] + 1]))
    case Release(why) =>
      match why
      case Auto => s.(lock := Free, pos := s.pos.(timer := Armed(s)))
      case Operator => s.(lock := Free, pos := s.pos.(timer := Armed(s), triggerMono := env.now), hist := s.hist + [Counted(env.now)])
      case Quiet(_, _) => s.(lock := Free)
  }

  predicate OperatorRefused(s: Sys, target: nat) {
    target < s.table.posture && s.table.posture >= HIGH && s.pos.untrusted
  }

  predicate OperatorActs(s: Sys, target: nat) {
    target < POSTURES && s.pos.ready && target != s.table.posture && !OperatorRefused(s, target)
  }

  predicate DecayLooks(s: Sys, secs: nat) {
    s.pos.ready && secs > 0 && s.table.posture == ELEVATED
  }

  function Due(s: Sys, secs: nat): nat {
    (s.pos.triggerMono + secs * SEC) % U64
  }

  /** What the first operation of thread `t` does to everything but the programs. */
  function Effect(s: Sys, t: nat, op: Op, env: Env): Sys
    requires op.Online? ==> op.cpu < |s.table.cpus|
  {
    match op
    case Report(a) => s.(sent := s.sent + [a])
    case Escalate(cpu) => if cpu < |s.table.cpus| then Guarded(s, Escalated(s.table, cpu), env.hashed) else s
    case RaiseUpTo(_, _) => s
    case Raise(target, trigger) =>
      if !s.pos.ready then s
      else
        var counted := target >= ELEVATED;
        s.(pos := s.pos.(untrusted := s.pos.untrusted || trigger == STATE_CORRUPT,
                         triggerMono := if counted then env.now else s.pos.triggerMono,
                         trigger := if counted then trigger else s.pos.trigger),
           hist := if counted then s.hist + [Counted(env.now)] else s.hist,
           lock := Held(t, if target > s.table.posture then Apply(s.table.posture, target, Auto) else Release(Auto)))
    case AfterUp(target) => s.(failFlag := s.failFlag || target == FAILSAFE)
    case Operate(target) =>
      if OperatorActs(s, target) then s.(lock := Held(t, Apply(s.table.posture, target, Operator))) else s
    case DecayDue => s
    case Decay(secs) =>
      if !DecayLooks(s, secs) then s
      else if env.now >= Due(s, secs) then s.(lock := Held(t, Apply(ELEVATED, NORMAL, Quiet(secs, env.now))))
      else s.(pos := s.pos.(timer := true))
    case Online(cpu, p) => Guarded(s, Stored(s.table, cpu, p), env.hashed)
    case Sample(_) => s
    case Relax(cpu) => if cpu < |s.table.cpus| then Guarded(s, Relaxed(s.table, cpu), env.hashed) else s
    case Coming(_, denied, unexpected) =>
      if denied then s.(gate := s.gate.(denyHits := s.gate.denyHits + 1))
      else if unexpected then s.(gate := s.gate.(lockHits := s.gate.lockHits + 1))
      else s
    case Decide(_, _) => s
    case Block(_, _) => s.(gate := s.gate.(blocked := s.gate.blocked + 1))
    case Refuse => s.(gate := s.gate.(refused := s.gate.refused + 1))
    case Admit(_) => s.(gate := s.gate.(admitted := s.gate.admitted + 1))
  }

  function FailsafeAlert(): Alert { Alert(FAILSAFE_ENTERED, CRITICAL, 0, 0) }

  function Announcement(was: nat, target: nat, why: nat, trigger: nat): Alert {
    Alert(POSTURE_CHANGED, if why == WHY_DECAY then INFO else WATCH, was * U32 + target, why * U32 + trigger)
  }

  /** What the first operation leaves to be done in its place. */
  function Push(s: Sys, op: Op, env: Env): seq<Op> {
    match op
    case Report(a) => Dispatched(a, env.topo)
    case RaiseUpTo(target, trigger) => [Raise(Min(target, Cap(s.params)), trigger)]
    case Raise(target, _) => if s.pos.ready && target > s.table.posture then [AfterUp(target)] else []
    case AfterUp(target) => if target == FAILSAFE then [Report(FailsafeAlert())] else []
    case Operate(target) =>
      if OperatorActs(s, target) then
        (if target > s.table.posture then [AfterUp(target)] else []) +
        [Report(Announcement(s.table.posture, target, WHY_OPERATOR, s.pos.trigger))]
      else []
    case DecayDue => [Decay(Min(s.params.decayS, MAX_DECAY_S))]
    case Decay(secs) =>
      if DecayLooks(s, secs) && env.now >= Due(s, secs)
      then [Report(Announcement(ELEVATED, NORMAL, WHY_DECAY, s.pos.trigger))] else []
    case Sample(cpu) =>
      if env.cool && s.table.posture < HIGH && cpu < |s.table.cpus| && s.table.cpus[cpu].strategy != s.table.cpus[cpu].Base()
      then [Relax(cpu)] else []
    case Coming(np, denied, unexpected) => if denied || unexpected then [Decide(np, denied)] else []
    case Decide(np, denied) =>
      if Enforcing(s.params, s.table.posture) then [Block(np, denied)]
      else [Report(if denied then Alert(VULN_DRIVER, CRITICAL, np.0, np.1) else Alert(MODULE_LOADED, WATCH, np.0, np.1)),
            Admit(denied)]
    case Block(np, denied) => [Report(Alert(DRIVER_BLOCKED, if denied then CRITICAL else WATCH, np.0, np.1)), Refuse]
    case Escalate(_) => []
    case Online(_, _) => []
    case Relax(_) => []
    case Refuse => []
    case Admit(_) => []
  }

  predicate NeedsLock(op: Op) {
    op.Raise? || op.Decay? || (op.Operate? && op.target < POSTURES)
  }

  datatype Step =
    | Run(t: nat, env: Env)                 // thread t does its next operation
    | Spawn(t: nat, op: Op)                 // an idle thread is called upon
    | Tune(params: Params)                  // the parameters are writable at run time
    | Exit                                  // the module is going away

  /** Calls that come from outside; only the response itself reports FAILSAFE_ENTERED. */
  predicate Root(s: Sys, op: Op) {
    match op
    case Report(a) => a.code != FAILSAFE_ENTERED
    case Operate(_) => true
    case DecayDue => s.pos.timer
    case Online(cpu, _) => cpu < |s.table.cpus|
    case Sample(cpu) => cpu < |s.table.cpus|
    case Coming(_, _, _) => true
    case _ => false
  }

  predicate GoodEnv(s: Sys, env: Env) {
    s.clock <= env.now < KTIME
  }

  predicate HoldsLock(s: Sys, t: nat) {
    s.lock.Held? && s.lock.tid == t
  }

  predicate Enabled(s: Sys, step: Step) {
    match step
    case Run(t, env) =>
      && t < |s.progs| && GoodEnv(s, env)
      && (HoldsLock(s, t) || (s.progs[t] != [] && (NeedsLock(s.progs[t][0]) ==> s.lock.Free?)))
    case Spawn(t, op) => t < |s.progs| && s.progs[t] == [] && !HoldsLock(s, t) && Root(s, op)
    case Tune(_) => true
    case Exit => s.lock.Free?
  }

  /** What the machine relies on to run at all. */
  ghost predicate Shape(s: Sys) {
    && |s.pos.entered| == POSTURES
    && (s.lock.Held? && s.lock.sec.Enter? ==> s.lock.sec.target < POSTURES)
    && forall t, i :: 0 <= t < |s.progs| && 0 <= i < |s.progs[t]| ==> OpShape(s, s.progs[t][i])
  }

  predicate OpShape(s: Sys, op: Op) {
    && (op.Online? ==> op.cpu < |s.table.cpus|)
    && ((op.RaiseUpTo? || op.Raise? || op.AfterUp?) ==> op.target < POSTURES)
  }

  function RunOp(s: Sys, t: nat, env: Env): Sys
    requires t < |s.progs| && s.progs[t] != [] && OpShape(s, s.progs[t][0])
  {
    var op := s.progs[t][0];
    Effect(s, t, op, env).(progs := s.progs[t := Push(s, op, env) + s.progs[t][1..]])
  }

  ghost function Next(s: Sys, step: Step): Sys
    requires Shape(s) && Enabled(s, step)
  {
    match step
    case Run(t, env) => (if HoldsLock(s, t) then SectionStep(s, env) else RunOp(s, t, env)).(clock := env.now)
    case Spawn(t, op) => s.(progs := s.progs[t := [op]], pos := s.pos.(timer := s.pos.timer && !op.DecayDue?))
    case Tune(params) => s.(params := params)
    case Exit => s.(pos := s.pos.(ready := false))
  }
}

/** Safety of the graduated response over whole runs. */
module ResponseHistory {
  import opened Guard
  import opened Response
  import opened ResponseSafety

  // ----- One FAIL_SAFE_ENTERED per entry into FAILSAFE -----

  function Told(sent: seq<Alert>): nat {
    if sent == [] then 0
    else Told(sent[..|sent| - 1]) + if sent[|sent| - 1].code == FAILSAFE_ENTERED then 1 else 0
  }

  function Untold(op: Op): nat {
    match op
    case AfterUp(target) => if target == FAILSAFE then 1 else 0
    case Report(a) => if a.code == FAILSAFE_ENTERED then 1 else 0
    case _ => 0
  }

  function Applying(lock: Lock): nat { if lock.Held? && lock.sec.Apply? && lock.sec.target == FAILSAFE then 1 else 0 }

  function Entering(lock: Lock): nat { if lock.Held? && lock.sec.Enter? && lock.sec.target == FAILSAFE then 1 else 0 }

  /** Entries are counted once and each is told of once, or is about to be. */
  ghost predicate EntriesOk(s: Sys) {
    && |s.pos.entered| == POSTURES
    && s.entries == s.pos.entered[FAILSAFE] + Entering(s.lock)
    && s.entries + Applying(s.lock) == Told(s.sent) + Total(s.progs, Untold)
  }

  lemma ToldNext(sent: seq<Alert>, a: Alert)
    ensures Told(sent + [a]) == Told(sent) + if a.code == FAILSAFE_ENTERED then 1 else 0
  {
    assert (sent + [a])[..|sent|] == sent;
  }

  lemma PushUntold(s: Sys, t: nat, op: Op, env: Env)
    requires OpShape(s, op) && s.table.posture < POSTURES && (NeedsLock(op) ==> s.lock.Free?)
    ensures var s' := Effect(s, t, op, env);
            Told(s'.sent) + Sum(Push(s, op, env), Untold) + Applying(s.lock) ==
            Told(s.sent) + Untold(op) + Applying(s'.lock)
  {
    if op.Report? {
      ToldNext(s.sent, op.a);
    }
    PushUntoldSum(s, op, env);
    hide Push, Sum, Told;
  }

  /** How many announcements an operation leaves to be made. */
  lemma PushUntoldSum(s: Sys, op: Op, env: Env)
    requires s.table.posture < POSTURES
    ensures Sum(Push(s, op, env), Untold) ==
            match op
            case AfterUp(target) => if target == FAILSAFE then 1 else 0
            case Raise(target, _) => if s.pos.ready && target > s.table.posture && target == FAILSAFE then 1 else 0
            case Operate(target) => if OperatorActs(s, target) && target == FAILSAFE then 1 else 0
            case _ => 0
  {
    match op {
      case Report(a) => DispatchLight(a, env.topo, Untold);
      case AfterUp(target) => SumOne(Report(FailsafeAlert()), Untold);
      case Raise(target, _) => SumOne(AfterUp(target), Untold);
      case RaiseUpTo(target, trigger) => SumOne(Raise(Min(target, Cap(s.params)), trigger), Untold);
      case DecayDue => SumOne(Decay(Min(s.params.decayS, MAX_DECAY_S)), Untold);
      case _ => PushUntoldRest(s, op, env);
    }
  }

  lemma PushUntoldRest(s: Sys, op: Op, env: Env)
    requires s.table.posture < POSTURES && !op.Report? && !op.AfterUp? && !op.Raise? && !op.RaiseUpTo? && !op.DecayDue?
    ensures Sum(Push(s, op, env), Untold) == if op.Operate? && OperatorActs(s, op.target) && op.target == FAILSAFE then 1 else 0
  {
    match op {
      case Operate(target) =>
        var announce := Report(Announcement(s.table.posture, target, WHY_OPERATOR, s.pos.trigger));
        SumOne(announce, Untold);
        SumTwo(AfterUp(target), announce, Untold);
        assert [AfterUp(target)] + [announce] == [AfterUp(target), announce];
      case Decay(_) => SumOne(Report(Announcement(ELEVATED, NORMAL, WHY_DECAY, s.pos.trigger)), Untold);
      case Sample(cpu) => SumOne(Relax(cpu), Untold);
      case Coming(np, denied, _) => SumOne(Decide(np, denied), Untold);
      case Decide(np, denied) =>
        SumOne(Block(np, denied), Untold);
        SumTwo(Report(Alert(VULN_DRIVER, CRITICAL, np.0, np.1)), Admit(denied), Untold);
        SumTwo(Report(Alert(MODULE_LOADED, WATCH, np.0, np.1)), Admit(denied), Untold);
      case Block(np, denied) =>
        SumTwo(Report(Alert(DRIVER_BLOCKED, if denied then CRITICAL else WATCH, np.0, np.1)), Refuse, Untold);
      case _ =>
    }
  }

  lemma EffectKeepsEntries(s: Sys, t: nat, op: Op, env: Env)
    requires OpShape(s, op)
    ensures Effect(s, t, op, env).entries == s.entries && Effect(s, t, op, env).pos.entered == s.pos.entered
    ensures (NeedsLock(op) ==> s.lock.Free?) ==> Entering(Effect(s, t, op, env).lock) == Entering(s.lock)
  {
  }

  lemma SectionEntries(s: Sys, env: Env)
    requires Shape(s) && EntriesOk(s) && s.lock.Held?
    ensures EntriesOk(SectionStep(s, env))
  {
    hide Told, Total;
  }

  lemma EntriesKept(s: Sys, step: Step)
    requires Shape(s) && EntriesOk(s) && s.table.posture < POSTURES && Enabled(s, step)
    ensures EntriesOk(Next(s, step))
  {
    match step {
      case Run(t, env) =>
        if HoldsLock(s, t) {
          SectionEntries(s, env);
          hide Told, Total, SectionStep;
        } else {
          var op := s.progs[t][0];
          TotalRun(s, t, env, Untold);
          PushUntold(s, t, op, env);
          EffectKeepsEntries(s, t, op, env);
          hide Told, Total, Effect, Push, Sum, Untold;
        }
      case Spawn(t, op) => TotalSpawn(s, t, op, Untold);
      case _ =>
    }
  }

  // ----- The gate's counters -----

  function Refusing(op: Op): nat { if op.Refuse? then 1 else 0 }

  function Undecided(op: Op): nat { if op.Decide? || op.Block? || op.Admit? then 1 else 0 }

  /** The refused counter is the number of refusals; hits are refused, let through or still open. */
  ghost predicate GateOk(s: Sys) {
    && s.gate.blocked == s.gate.refused + Total(s.progs, Refusing)
    && s.gate.denyHits + s.gate.lockHits == s.gate.blocked + s.gate.admitted + Total(s.progs, Undecided)
  }

  lemma PushGate(s: Sys, t: nat, op: Op, env: Env)
    requires OpShape(s, op)
    ensures var g, g' := s.gate, Effect(s, t, op, env).gate;
            && g'.blocked + g.refused + Refusing(op) == g.blocked + g'.refused + Sum(Push(s, op, env), Refusing)
            && g'.denyHits + g'.lockHits + g.blocked + g.admitted + Undecided(op) ==
               g.denyHits + g.lockHits + g'.blocked + g'.admitted + Sum(Push(s, op, env), Undecided)
  {
    PushSums(s, op, env);
    hide Push, Sum;
  }

  /** What an operation leaves to the gate. */
  lemma PushSums(s: Sys, op: Op, env: Env)
    ensures Sum(Push(s, op, env), Refusing) == (if op.Block? then 1 else 0)
    ensures Sum(Push(s, op, env), Undecided) == (if op.Decide? || (op.Coming? && (op.denied || op.unexpected)) then 1 else 0)
  {
    match op {
      case Report(a) =>
        DispatchLight(a, env.topo, Refusing);
        DispatchLight(a, env.topo, Undecided);
      case Coming(np, denied, _) =>
        SumOne(Decide(np, denied), Refusing);
        SumOne(Decide(np, denied), Undecided);
      case Decide(np, denied) => DecideGate(s, np, denied, env);
      case Block(np, denied) =>
        var report := Report(Alert(DRIVER_BLOCKED, if denied then CRITICAL else WATCH, np.0, np.1));
        SumTwo(report, Refuse, Refusing);
        SumTwo(report, Refuse, Undecided);
      case _ => PushGateRest(s, op, env);
    }
  }

  lemma DecideGate(s: Sys, np: (nat, nat), denied: bool, env: Env)
    ensures Sum(Push(s, Decide(np, denied), env), Refusing) == 0 && Sum(Push(s, Decide(np, denied), env), Undecided) == 1
  {
    var a := if denied then Alert(VULN_DRIVER, CRITICAL, np.0, np.1) else Alert(MODULE_LOADED, WATCH, np.0, np.1);
    SumOne(Block(np, denied), Refusing);
    SumOne(Block(np, denied), Undecided);
    SumTwo(Report(a), Admit(denied), Refusing);
    SumTwo(Report(a), Admit(denied), Undecided);
  }

  predicate GateOp(op: Op) {
    op.Coming? || op.Decide? || op.Block? || op.Refuse? || op.Admit?
  }

  lemma PushGateRest(s: Sys, op: Op, env: Env)
    requires !op.Coming? && !op.Decide? && !op.Block? && !op.Report?
    ensures Sum(Push(s, op, env), Refusing) == 0 && Sum(Push(s, op, env), Undecided) == 0
  {
    var push := Push(s, op, env);
    assert |push| <= 2 && forall i :: 0 <= i < |push| ==> !GateOp(push[i]);
    if |push| == 1 {
      SumOne(push[0], Refusing);
      SumOne(push[0], Undecided);
      assert push == [push[0]];
    } else if |push| == 2 {
      SumTwo(push[0], push[1], Refusing);
      SumTwo(push[0], push[1], Undecided);
      assert push == [push[0], push[1]];
    }
  }

  lemma GateKept(s: Sys, step: Step)
    requires Shape(s) && GateOk(s) && Enabled(s, step)
    ensures GateOk(Next(s, step))
  {
    match step {
      case Run(t, env) =>
        if HoldsLock(s, t) {
          hide Total;
        } else {
          TotalRun(s, t, env, Refusing);
          TotalRun(s, t, env, Undecided);
          PushGate(s, t, s.progs[t][0], env);
          hide Total, Effect, Push, Sum;
        }
      case Spawn(t, op) =>
        TotalSpawn(s, t, op, Refusing);
        TotalSpawn(s, t, op, Undecided);
      case _ =>
    }
  }
}

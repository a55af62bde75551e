/** When ELEVATED is on its way down, and when it has been forgotten there. */
module ResponseStuck {
  import opened Guard
  import opened Response
  import opened ResponseSafety
  import opened ResponseHistory
  import opened ResponseRuns
  import opened Posture
  import opened PostureSolo

  function Decaying(op: Op): nat {
    match op
    case DecayDue => 1
    case Decay(secs) => if secs > 0 then 1 else 0
    case _ => 0
  }

  /** The quiet-period timer runs, or its handler is at work. */
  ghost predicate Underway(s: Sys) {
    s.pos.timer || Total(s.progs, Decaying) > 0
  }

  /** Nobody is changing the posture, and it is ELEVATED. */
  predicate Elevated(s: Sys) {
    s.lock.Free? && s.pos.ready && s.table.posture == ELEVATED
  }

  /** At ELEVATED the posture is on its way down. */
  ghost predicate NotStuck(s: Sys) {
    Elevated(s) ==> Underway(s)
  }

  /** The lock is released at ELEVATED after a raise or an operator's step. */
  predicate Releases(s: Sys, step: Step) {
    && step.Run? && HoldsLock(s, step.t) && s.lock.sec.Release? && !s.lock.sec.why.Quiet?
    && s.pos.ready && s.table.posture == ELEVATED
  }

  /** With no decay period set: a release that finds nothing under way, or the last handler under way reading the period. */
  ghost predicate Forgets(s: Sys, step: Step) {
    && s.params.decayS == 0 && !s.pos.timer
    && ((Releases(s, step) && Total(s.progs, Decaying) == 0) ||
        (step.Run? && Elevated(s) && AboutTo(s, step.t, DecayDue) && Total(s.progs, Decaying) == 1))
  }

  /** A release with a decay period set. */
  predicate Arms(s: Sys, step: Step) {
    Releases(s, step) && s.params.decayS > 0
  }

  // ----- Steps -----

  lemma PushDecaying(s: Sys, op: Op, env: Env)
    ensures Sum(Push(s, op, env), Decaying) == if op.DecayDue? && s.params.decayS > 0 then 1 else 0
  {
    if op.Report? {
      DispatchLight(op.a, env.topo, Decaying);
    } else {
      var push := Push(s, op, env);
      assert |push| <= 2;
      if |push| == 1 {
        SumOne(push[0], Decaying);
        assert push == [push[0]];
      } else if |push| == 2 {
        SumTwo(push[0], push[1], Decaying);
        assert push == [push[0], push[1]];
      }
    }
  }

  lemma EffectTimer(s: Sys, t: nat, op: Op, env: Env)
    requires OpShape(s, op) && (NeedsLock(op) ==> s.lock.Free?)
    ensures var s' := Effect(s, t, op, env);
            && s'.table.posture == s.table.posture && s'.pos.ready == s.pos.ready && (s.pos.timer ==> s'.pos.timer)
            && (s'.pos.timer ==> s.pos.timer || (op.Decay? && op.secs > 0))
            && (op.Decay? && s.pos.ready && op.secs > 0 && s.table.posture == ELEVATED && s'.lock.Free? ==> s'.pos.timer)
            && (s'.lock.Free? ==> s.lock.Free?)
  {
  }

  lemma {:induction false} HeadCounts(progs: seq<seq<Op>>, t: nat, w: Op -> nat)
    requires t < |progs| && progs[t] != []
    ensures Total(progs, w) >= w(progs[t][0])
  {
    if t > 0 {
      HeadCounts(progs[1..], t - 1, w);
    }
  }

  /** What one operation outside the lock does to what is under way. */
  lemma OpUnderway(s: Sys, t: nat, env: Env)
    requires Inv(s) && Enabled(s, Run(t, env)) && !HoldsLock(s, t)
    ensures var s', op := Next(s, Run(t, env)), s.progs[t][0];
            && (!Underway(s) ==> !Underway(s'))
            && (Forgets(s, Run(t, env)) ==> !Underway(s'))
            && (Elevated(s') ==> Elevated(s))
            && (Elevated(s') && Underway(s) && !Forgets(s, Run(t, env)) ==> Underway(s'))
  {
    var op := s.progs[t][0];
    EffectTimer(s, t, op, env);
    PushDecaying(s, op, env);
    TotalRun(s, t, env, Decaying);
    HeadCounts(s.progs, t, Decaying);
    hide Sound, Total, Effect, Push;
  }

  /** What a step under the lock does to it. */
  lemma SectionUnderway(s: Sys, env: Env)
    requires Inv(s) && s.lock.Held? && GoodEnv(s, env)
    ensures var step := Run(s.lock.tid, env);
            && Enabled(s, step)
            && var s' := Next(s, step);
               && (!Underway(s) && !Arms(s, step) ==> !Underway(s'))
               && (Forgets(s, step) ==> !Underway(s'))
               && (Elevated(s') && !Forgets(s, step) ==> Underway(s'))
  {
    hide Sound, Total, EntriesOk, GateOk, HistoryOk;
  }

  /** What the steps of nobody in particular do to it. */
  lemma OtherUnderway(s: Sys, step: Step)
    requires Inv(s) && Enabled(s, step) && !step.Run?
    ensures var s' := Next(s, step);
            Underway(s') == Underway(s) && !Forgets(s, step) && !Arms(s, step) && (Elevated(s') ==> Elevated(s))
  {
    if step.Spawn? {
      TotalSpawn(s, step.t, step.op, Decaying);
    }
    hide Total, Sound;
  }

  lemma NothingStays(s: Sys, step: Step)
    requires Inv(s) && Enabled(s, step) && ((!Underway(s) && !Arms(s, step)) || Forgets(s, step))
    ensures !Underway(Next(s, step))
  {
    hide Inv, Next, Underway;
    if !step.Run? {
      OtherUnderway(s, step);
    } else if HoldsLock(s, step.t) {
      SectionUnderway(s, step.env);
    } else {
      OpUnderway(s, step.t, step.env);
    }
  }

  /** A state at ELEVATED with nothing under way comes from one, or from a step that forgets. */
  lemma NothingComesFrom(s: Sys, step: Step)
    requires Inv(s) && Enabled(s, step) && Elevated(Next(s, step)) && !Underway(Next(s, step)) && !Forgets(s, step)
    ensures Elevated(s) && !Underway(s)
  {
    hide Inv, Next, Underway, Elevated;
    if !step.Run? {
      OtherUnderway(s, step);
    } else if HoldsLock(s, step.t) {
      SectionUnderway(s, step.env);
    } else {
      OpUnderway(s, step.t, step.env);
    }
  }

  // ----- Runs -----

  /** Step k forgot, and no release with a decay period set has come since. */
  ghost predicate ForgottenSince(ss: seq<Sys>, steps: seq<Step>, k: nat, i: nat) {
    && k < i <= |steps| && |steps| < |ss| && Forgets(ss[k], steps[k])
    && forall m :: k < m < i ==> !Arms(ss[m], steps[m])
  }

  lemma {:induction false} ForgottenStays(ss: seq<Sys>, steps: seq<Step>, k: nat, i: nat)
    requires Behavior(ss, steps) && i < |ss| && ForgottenSince(ss, steps, k, i)
    ensures !Underway(ss[i])
    decreases i
  {
    hide Inv, Init, Enabled, Next, Underway, Forgets, Arms;
    Always(ss, steps, i - 1);
    assert Moves(ss[i - 1], steps[i - 1], ss[i]);
    if k < i - 1 {
      ForgottenStays(ss, steps, k, i - 1);
    }
    NothingStays(ss[i - 1], steps[i - 1]);
  }

  lemma {:induction false} ForgottenBefore(ss: seq<Sys>, steps: seq<Step>, i: nat) returns (k: nat)
    requires Behavior(ss, steps) && i < |ss| && Elevated(ss[i]) && !Underway(ss[i])
    ensures ForgottenSince(ss, steps, k, i)
    decreases i
  {
    NotAtFirst(ss, steps, i);
    StepBefore(ss, steps, i);
    hide Behavior, Elevated, Underway, Forgets, Arms;
    if Forgets(ss[i - 1], steps[i - 1]) {
      k := i - 1;
    } else {
      k := ForgottenBefore(ss, steps, i - 1);
    }
  }

  /** The step into a stuck state forgot, or came from a stuck state and did not arm the timer. */
  lemma StepBefore(ss: seq<Sys>, steps: seq<Step>, i: nat)
    requires Behavior(ss, steps) && 0 < i < |ss| && Elevated(ss[i]) && !Underway(ss[i])
    ensures |ss| == |steps| + 1
    ensures var s, step := ss[i - 1], steps[i - 1];
            Forgets(s, step) || (Elevated(s) && !Underway(s) && !Arms(s, step))
  {
    hide Inv, Init, Enabled, Next, Underway, Forgets;
    Always(ss, steps, i - 1);
    assert Moves(ss[i - 1], steps[i - 1], ss[i]);
    if !Forgets(ss[i - 1], steps[i - 1]) {
      NothingComesFrom(ss[i - 1], steps[i - 1]);
    }
  }

  lemma NotAtFirst(ss: seq<Sys>, steps: seq<Step>, i: nat)
    requires Behavior(ss, steps) && i < |ss| && Elevated(ss[i])
    ensures i > 0
  {
  }

  /**
   Over every run: ELEVATED is stuck exactly when some step forgot it and no release at ELEVATED with a decay period
   set has come since.
   */
  lemma StuckExactly(ss: seq<Sys>, steps: seq<Step>, i: nat)
    requires Behavior(ss, steps) && i < |ss| && Elevated(ss[i])
    ensures !NotStuck(ss[i]) <==> exists k :: ForgottenSince(ss, steps, k, i)
  {
    hide Behavior, Underway, ForgottenSince;
    if !NotStuck(ss[i]) {
      var k := ForgottenBefore(ss, steps, i);
    }
    if k :| ForgottenSince(ss, steps, k, i) {
      ForgottenStays(ss, steps, k, i);
    }
  }

  /** In particular, with a decay period set throughout, ELEVATED is always on its way down. */
  lemma ElevatedNotStuck(ss: seq<Sys>, steps: seq<Step>, i: nat)
    requires Behavior(ss, steps) && i < |ss| && forall m :: 0 <= m < i ==> ss[m].params.decayS > 0
    ensures NotStuck(ss[i])
  {
    hide Behavior, Underway;
    if Elevated(ss[i]) {
      StuckExactly(ss, steps, i);
    }
  }

  // ----- A run that gets stuck -----

  /** The states a thread running alone goes through. */
  lemma {:induction false} AloneStates(s: Sys, t: nat, env: Env, n: nat, e: Sys) returns (mid: seq<Sys>)
    requires Alone(s, t, env, n, e)
    ensures |mid| == n + 1 && mid[0] == s && mid[n] == e
    ensures forall i :: 0 <= i < n ==> Moves(mid[i], Run(t, env), mid[i + 1])
    decreases n
  {
    hide Next, Shape, Enabled;
    if n == 0 {
      mid := [s];
    } else {
      var m := AloneStates(Next(s, Run(t, env)), t, env, n - 1, e);
      mid := [s] + m;
    }
  }

  function Violation(): Alert { Alert(DMA, CRITICAL, 0, 0) }

  /** Nothing but thread 0 is under way, at NORMAL with no decay period. */
  ghost predicate Calm(s: Sys, ops: seq<Op>) {
    && Inv(s) && s.lock.Free? && s.pos.ready && !s.pos.timer && s.table.posture == NORMAL
    && s.params.decayS == 0 && Cap(s.params) >= ELEVATED
    && |s.progs| > 0 && s.progs[0] == ops && forall t :: 0 < t < |s.progs| ==> s.progs[t] == []
  }

  lemma ReportBegins(s: Sys, env: Env)
    requires Init(s) && |s.progs| > 0 && s.params.decayS == 0 && Cap(s.params) >= ELEVATED && GoodEnv(s, env)
    ensures Shape(s) && Enabled(s, Spawn(0, Report(Violation())))
    ensures var a := Next(s, Spawn(0, Report(Violation())));
            Calm(a, [Report(Violation())]) && GoodEnv(a, env)
  {
    InitInv(s);
    NextInv(s, Spawn(0, Report(Violation())));
    hide Inv;
  }

  lemma ReportRouted(a: Sys, env: Env) returns (b: Sys)
    requires Calm(a, [Report(Violation())]) && GoodEnv(a, env)
    ensures Alone(a, 0, env, 1, b) && Calm(b, [RaiseUpTo(ELEVATED, DMA)]) && GoodEnv(b, env)
  {
    hide Inv, Alone, Cap;
    assert a.progs[0] == [Report(Violation())] + [];
    b := SoloOp(a, 0, env, Report(Violation()), []);
    assert Dispatched(Violation(), env.topo) == [RaiseUpTo(ELEVATED, DMA)];
  }

  lemma RaiseAlone(b: Sys, env: Env) returns (n: nat, e: Sys)
    requires Calm(b, [RaiseUpTo(ELEVATED, DMA)]) && GoodEnv(b, env)
    ensures Alone(b, 0, env, n, e)
    ensures e.lock.Free? && e.pos.ready && e.table.posture == ELEVATED && !e.pos.timer
    ensures Shape(e) && forall t :: 0 <= t < |e.progs| ==> e.progs[t] == []
  {
    hide Inv, Alone, GoodEnv;
    n, e := SoloRaise(b, 0, env, ELEVATED, DMA);
    hide Sound;
    RaisedUp(ViewOf(b), ELEVATED, DMA, env.now);
    MovedPosture(Noted(ViewOf(b), ELEVATED, DMA, env.now), ELEVATED);
  }

  /** The trigger: reported, routed, raised, with nobody else around. */
  lemma TriggerAlone(s: Sys, env: Env) returns (n: nat, e: Sys)
    requires Init(s) && |s.progs| > 0 && s.params.decayS == 0 && Cap(s.params) >= ELEVATED && GoodEnv(s, env)
    ensures Shape(s) && Enabled(s, Spawn(0, Report(Violation())))
    ensures Alone(Next(s, Spawn(0, Report(Violation()))), 0, env, n, e)
    ensures e.lock.Free? && e.pos.ready && e.table.posture == ELEVATED && !e.pos.timer
    ensures Shape(e) && forall t :: 0 <= t < |e.progs| ==> e.progs[t] == []
  {
    ReportBegins(s, env);
    hide Calm, Next, Enabled, Shape, Alone, GoodEnv, Init, Cap;
    var a := Next(s, Spawn(0, Report(Violation())));
    var b := ReportRouted(a, env);
    n, e := RaiseAlone(b, env);
    AloneThen(a, 0, env, 1, b, n, e);
    n := n + 1;
  }

  /** No decay period, a trigger, and then one is switched on: ELEVATED stays, with no timer and no handler. */
  lemma StuckRun(s: Sys, env: Env, params: Params) returns (ss: seq<Sys>, steps: seq<Step>)
    requires Init(s) && |s.progs| > 0 && s.params.decayS == 0 && Cap(s.params) >= ELEVATED && GoodEnv(s, env)
    ensures Behavior(ss, steps) && ss[0] == s && ss[|steps|].params == params && !NotStuck(ss[|steps|])
  {
    var n, e := TriggerAlone(s, env);
    var a := Next(s, Spawn(0, Report(Violation())));
    var mid := AloneStates(a, 0, env, n, e);
    hide Init, Alone;
    var runs := seq(n, _ => Run(0, env));
    LastTune(e, params);
    var z := Next(e, Tune(params));
    ss := [s] + mid + [z];
    steps := [Spawn(0, Report(Violation()))] + runs + [Tune(params)];
    hide Next, Enabled, Shape;
    forall i | 0 <= i < |steps|
      ensures Moves(ss[i], steps[i], ss[i + 1])
    {
      if 0 < i <= n {
        assert ss[i] == mid[i - 1] && ss[i + 1] == mid[i] && steps[i] == Run(0, env);
      }
    }
  }

  lemma LastTune(e: Sys, params: Params)
    requires Shape(e) && e.lock.Free? && e.pos.ready && e.table.posture == ELEVATED && !e.pos.timer
    requires forall t :: 0 <= t < |e.progs| ==> e.progs[t] == []
    ensures Moves(e, Tune(params), Next(e, Tune(params))) && Next(e, Tune(params)).params == params
    ensures !NotStuck(Next(e, Tune(params)))
  {
    TotalIdle(e.progs, Decaying);
    hide Total;
  }
}

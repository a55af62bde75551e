/** The driver-load gate among the other threads: what a deny-list hit that was let through does to later loads. */
module ResponseGate {
  import opened Guard
  import opened Response
  import opened ResponseSafety
  import opened ResponseHistory
  import opened ResponseRuns

  /** The report of the let-through hit has not got as far as the posture yet. */
  ghost predicate Pending(s: Sys, t: nat) {
    if HoldsLock(s, t) then s.lock.sec.Apply? && s.lock.sec.target >= HIGH && s.lock.sec.why.Auto?
    else
      && t < |s.progs| && s.progs[t] != []
      && match s.progs[t][0]
         case Report(a) => a.code == VULN_DRIVER && a.level == CRITICAL
         case RaiseUpTo(target, _) => target >= HIGH
         case Raise(target, _) => target >= HIGH
         case _ => false
  }

  ghost predicate Alarm(s: Sys, t: nat) {
    s.table.posture >= HIGH || Pending(s, t)
  }

  /** An operator step below HIGH takes effect. */
  ghost predicate StepsDown(s: Sys, step: Step) {
    && step.Run? && HoldsLock(s, step.t)
    && s.lock.sec.Apply? && s.lock.sec.why.Operator? && s.lock.sec.target < HIGH
  }

  lemma HighStays(s: Sys, step: Step)
    requires Inv(s) && Enabled(s, step) && !StepsDown(s, step) && s.table.posture >= HIGH
    ensures Next(s, step).table.posture >= HIGH
  {
    match step {
      case Run(t, env) =>
        if !HoldsLock(s, t) {
          EffectTable(s, t, s.progs[t][0], env);
          hide Effect, Push, Sound;
        }
      case _ =>
    }
  }

  /** The thread itself: report, cap, lock, apply. */
  lemma PendingOwn(s: Sys, t: nat, env: Env)
    requires Inv(s) && Enabled(s, Run(t, env)) && Pending(s, t) && s.table.posture < HIGH
    requires Cap(s.params) >= HIGH && s.pos.ready
    ensures Alarm(Next(s, Run(t, env)), t)
  {
    if !HoldsLock(s, t) {
      var op := s.progs[t][0];
      if op.Report? {
        assert Dispatched(op.a, env.topo) == [RaiseUpTo(HIGH, VULN_DRIVER)];
      }
      var push := Push(s, op, env);
      assert push != [] ==> (push + s.progs[t][1..])[0] == push[0];
    }
  }

  /** The others do not disturb it. */
  lemma PendingOthers(s: Sys, t: nat, step: Step)
    requires Inv(s) && Enabled(s, step) && Pending(s, t) && !(step.Run? && step.t == t)
    ensures Pending(Next(s, step), t)
  {
    match step {
      case Run(o, env) =>
        if HoldsLock(s, o) {
          hide Sound;
        } else {
          var op := s.progs[o][0];
          if !NeedsLock(op) {
            EffectUnlocked(s, o, op, env);
          } else {
            EffectLocks(s, o, op, env);
          }
          hide Effect, Push, Sound;
        }
      case _ =>
    }
  }

  lemma AlarmStep(s: Sys, step: Step, t: nat)
    requires Inv(s) && Enabled(s, step) && Alarm(s, t) && !StepsDown(s, step)
    requires s.table.posture < HIGH ==> Cap(s.params) >= HIGH && s.pos.ready
    ensures Alarm(Next(s, step), t)
  {
    hide Inv, Next, Pending, Enabled, Cap, StepsDown;
    if s.table.posture >= HIGH {
      HighStays(s, step);
    } else if step.Run? && step.t == t {
      PendingOwn(s, t, step.env);
    } else {
      PendingOthers(s, t, step);
    }
  }

  /** The cap reaches HIGH and the ladder is up, as long as that still matters; and nobody steps below HIGH. */
  ghost predicate Undisturbed(s: Sys, step: Step) {
    && (s.table.posture < HIGH ==> Cap(s.params) >= HIGH && s.pos.ready)
    && !StepsDown(s, step)
  }

  lemma {:induction false} AlarmLasts(ss: seq<Sys>, steps: seq<Step>, t: nat, i: nat, j: nat)
    requires Behavior(ss, steps) && i <= j < |ss| && Alarm(ss[i], t)
    requires forall m :: i <= m < j ==> Undisturbed(ss[m], steps[m])
    ensures Alarm(ss[j], t)
    decreases j
  {
    hide Inv, Init, Enabled, Next, Pending, Cap, StepsDown;
    if i < j {
      AlarmLasts(ss, steps, t, i, j - 1);
      Always(ss, steps, j - 1);
      assert Moves(ss[j - 1], steps[j - 1], ss[j]);
      AlarmStep(ss[j - 1], steps[j - 1], t);
    }
  }

  lemma {:induction false} HighLasts(ss: seq<Sys>, steps: seq<Step>, i: nat, j: nat)
    requires Behavior(ss, steps) && i <= j < |ss| && ss[i].table.posture >= HIGH
    requires forall m :: i <= m < j ==> !StepsDown(ss[m], steps[m])
    ensures ss[j].table.posture >= HIGH
    decreases j
  {
    hide Inv, Init, Enabled, Next, StepsDown;
    if i < j {
      HighLasts(ss, steps, i, j - 1);
      Always(ss, steps, j - 1);
      assert Moves(ss[j - 1], steps[j - 1], ss[j]);
      HighStays(ss[j - 1], steps[j - 1]);
    }
  }

  /** Thread t is about to decide on a load. */
  ghost predicate Deciding(s: Sys, t: nat) {
    t < |s.progs| && !HoldsLock(s, t) && s.progs[t] != [] && s.progs[t][0].Decide?
  }

  /** Thread t is about to return from a load it let through. */
  ghost predicate Admitting(s: Sys, t: nat) {
    t < |s.progs| && !HoldsLock(s, t) && s.progs[t] != [] && s.progs[t][0].Admit?
  }

  /** The load thread t' decides on in this step is refused. */
  ghost predicate RefusesAt(s: Sys, t': nat, s': Sys) {
    && Deciding(s, t') && t' < |s'.progs|
    && s'.progs[t'] == [Block(s.progs[t'][0].np, s.progs[t'][0].denied)] + s.progs[t'][1..]
  }

  /** Thread t lets a denied module through. */
  ghost predicate LetsThrough(s: Sys, t: nat, step: Step) {
    && step.Run? && step.t == t && Deciding(s, t) && s.progs[t][0].denied
    && !Enforcing(s.params, s.table.posture)
  }

  lemma LetThrough(s: Sys, t: nat, env: Env)
    requires Shape(s) && Enabled(s, Run(t, env)) && LetsThrough(s, t, Run(t, env))
    ensures Pending(Next(s, Run(t, env)), t)
  {
    var op := s.progs[t][0];
    var push := Push(s, op, env);
    assert (push + s.progs[t][1..])[0] == push[0];
  }

  lemma DecidesBy(s: Sys, t: nat, env: Env)
    requires Shape(s) && Enabled(s, Run(t, env)) && Deciding(s, t)
    ensures RefusesAt(s, t, Next(s, Run(t, env))) <==> Enforcing(s.params, s.table.posture)
  {
    var push, rest := Push(s, s.progs[t][0], env), s.progs[t][1..];
    assert (push + rest)[0] == push[0];
    assert ([Block(s.progs[t][0].np, s.progs[t][0].denied)] + rest)[0] == Block(s.progs[t][0].np, s.progs[t][0].denied);
  }

  /**
   Thread t lets a denied module through at step i.  From the very next step on, however threads interleave, a load
   decided at step j with auto_enforce set is refused exactly when enforce is set or the first hit's report is not
   any more on its way to a posture still below HIGH.
   */
  lemma RefusedExactly(ss: seq<Sys>, steps: seq<Step>, t: nat, i: nat, j: nat, t': nat, env': Env)
    requires Behavior(ss, steps) && i < j < |steps| && LetsThrough(ss[i], t, steps[i])
    requires steps[j] == Run(t', env') && Deciding(ss[j], t') && ss[j].params.autoEnforce
    requires forall m :: i < m < j ==> Undisturbed(ss[m], steps[m])
    ensures RefusesAt(ss[j], t', ss[j + 1]) <==> ss[j].params.enforce || !(Pending(ss[j], t) && ss[j].table.posture < HIGH)
  {
    assert Moves(ss[i], steps[i], ss[i + 1]);
    assert Moves(ss[j], steps[j], ss[j + 1]);
    LetThrough(ss[i], t, steps[i].env);
    DecidesBy(ss[j], t', env');
    hide Inv, Init, Next, Behavior, Undisturbed, Pending, RefusesAt;
    AlarmLasts(ss, steps, t, i + 1, j);
  }

  /** Once that report is done, every load decided while auto_enforce is set is refused, unless an operator steps below HIGH. */
  lemma DenyHitLatches(ss: seq<Sys>, steps: seq<Step>, t: nat, i: nat, k: nat, j: nat, t': nat, env': Env)
    requires Behavior(ss, steps) && i < k <= j < |steps| && LetsThrough(ss[i], t, steps[i])
    requires Admitting(ss[k], t) && steps[j] == Run(t', env') && Deciding(ss[j], t') && ss[j].params.autoEnforce
    requires forall m :: i < m < k ==> Undisturbed(ss[m], steps[m])
    requires forall m :: k <= m < j ==> !StepsDown(ss[m], steps[m])
    ensures RefusesAt(ss[j], t', ss[j + 1])
  {
    assert Moves(ss[i], steps[i], ss[i + 1]);
    LetThrough(ss[i], t, steps[i].env);
    AlarmLasts(ss, steps, t, i + 1, k);
    assert ss[k].table.posture >= HIGH;
    hide Inv, Init, Next, Behavior, StepsDown, Cap, RefusesAt, Pending, LetsThrough;
    forall m | k <= m <= j
      ensures ss[m].table.posture >= HIGH
    {
      HighLasts(ss, steps, k, m);
    }
    RefusedExactly(ss, steps, t, i, j, t', env');
  }

  /** What a decision reports, with the codes and levels of the interface, before the load goes on or is refused. */
  lemma DecisionReports(s: Sys, t: nat, env: Env)
    requires Shape(s) && Enabled(s, Run(t, env)) && Deciding(s, t)
    ensures var np, denied, rest := s.progs[t][0].np, s.progs[t][0].denied, s.progs[t][1..];
            var s' := Next(s, Run(t, env));
            && s'.table == s.table && s'.gate == s.gate
            && if s.params.enforce || (s.params.autoEnforce && s.table.posture >= 2) then
                 && s'.progs[t] == [Block(np, denied)] + rest
                 && Push(s', Block(np, denied), env) == [Report(Alert(0x26, if denied then 2 else 1, np.0, np.1)), Refuse]
               else if denied then s'.progs[t] == [Report(Alert(0x25, 2, np.0, np.1)), Admit(true)] + rest
               else s'.progs[t] == [Report(Alert(0x24, 1, np.0, np.1)), Admit(false)] + rest
  {
  }

  // ----- Two loads at once -----

  function Denied(np: (nat, nat)): Op { Coming(np, true, false) }

  function Warned(np: (nat, nat)): seq<Op> { [Report(Alert(VULN_DRIVER, CRITICAL, np.0, np.1)), Admit(true)] }

  lemma Called(s: Sys, t: nat, np: (nat, nat))
    requires Inv(s) && s.lock.Free? && t < |s.progs| && s.progs[t] == []
    ensures var s' := s.(progs := s.progs[t := [Denied(np)]]); Moves(s, Spawn(t, Denied(np)), s') && Inv(s')
  {
    NextInv(s, Spawn(t, Denied(np)));
    hide Inv;
  }

  lemma Counted(s: Sys, t: nat, env: Env, np: (nat, nat))
    requires Inv(s) && s.lock.Free? && GoodEnv(s, env) && t < |s.progs| && s.progs[t] == [Denied(np)]
    ensures var s' := s.(progs := s.progs[t := [Decide(np, true)]], clock := env.now, gate := s.gate.(denyHits := s.gate.denyHits + 1));
            Moves(s, Run(t, env), s') && Inv(s')
  {
    NextInv(s, Run(t, env));
    hide Inv;
    assert [Decide(np, true)] + s.progs[t][1..] == [Decide(np, true)];
  }

  lemma Admitted(s: Sys, t: nat, env: Env, np: (nat, nat))
    requires Inv(s) && s.lock.Free? && GoodEnv(s, env) && t < |s.progs| && s.progs[t] == [Decide(np, true)]
    requires !Enforcing(s.params, s.table.posture)
    ensures var s' := s.(progs := s.progs[t := Warned(np)], clock := env.now);
            Moves(s, Run(t, env), s') && Inv(s') && LetsThrough(s, t, Run(t, env))
  {
    NextInv(s, Run(t, env));
    hide Inv;
    assert Warned(np) + s.progs[t][1..] == Warned(np);
  }

  lemma BothCounted(s: Sys, env: Env, a: (nat, nat), b: (nat, nat)) returns (s1: Sys, s2: Sys, s3: Sys, s4: Sys)
    requires Init(s) && |s.progs| >= 2 && GoodEnv(s, env)
    ensures Moves(s, Spawn(0, Denied(a)), s1) && Moves(s1, Spawn(1, Denied(b)), s2)
    ensures Moves(s2, Run(0, env), s3) && Moves(s3, Run(1, env), s4)
    ensures s1.params == s2.params == s3.params == s4.params == s.params && s4.table == s.table
    ensures Inv(s4) && s4.lock.Free? && GoodEnv(s4, env)
    ensures |s4.progs| >= 2 && s4.progs[0] == [Decide(a, true)] && s4.progs[1] == [Decide(b, true)]
  {
    InitInv(s);
    hide Inv, Moves;
    s1 := s.(progs := s.progs[0 := [Denied(a)]]);
    Called(s, 0, a);
    s2 := s1.(progs := s1.progs[1 := [Denied(b)]]);
    Called(s1, 1, b);
    s3 := s2.(progs := s2.progs[0 := [Decide(a, true)]], clock := env.now, gate := s2.gate.(denyHits := s2.gate.denyHits + 1));
    Counted(s2, 0, env, a);
    s4 := s3.(progs := s3.progs[1 := [Decide(b, true)]], clock := env.now, gate := s3.gate.(denyHits := s3.gate.denyHits + 1));
    Counted(s3, 1, env, b);
  }

  /** Two threads load denied modules; the second decides before the first one's report has raised the posture. */
  lemma LetThroughTwice(s: Sys, env: Env, a: (nat, nat), b: (nat, nat)) returns (ss: seq<Sys>, steps: seq<Step>)
    requires Init(s) && |s.progs| >= 2 && GoodEnv(s, env) && !s.params.enforce
    ensures Behavior(ss, steps) && ss[0] == s && |steps| == 6 && forall i :: 0 <= i < 7 ==> ss[i].params == s.params
    ensures LetsThrough(ss[4], 0, steps[4]) && LetsThrough(ss[5], 1, steps[5])
  {
    hide Inv, Moves, LetsThrough;
    var s1, s2, s3, s4 := BothCounted(s, env, a, b);
    var s5 := s4.(progs := s4.progs[0 := Warned(a)], clock := env.now);
    Admitted(s4, 0, env, a);
    var s6 := s5.(progs := s5.progs[1 := Warned(b)], clock := env.now);
    Admitted(s5, 1, env, b);
    ss := [s, s1, s2, s3, s4, s5, s6];
    steps := [Spawn(0, Denied(a)), Spawn(1, Denied(b)), Run(0, env), Run(1, env), Run(0, env), Run(1, env)];
  }
}

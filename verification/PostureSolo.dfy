/** The interleaved machine running one thread undisturbed does what the sequential calls do. */
module PostureSolo {
  import opened Guard
  import opened Response
  import opened ResponseSafety
  import opened ResponseHistory
  import opened ResponseRuns
  import opened Posture

  function ViewOf(s: Sys): View {
    View(s.table, s.pos.ready, s.pos.untrusted, s.pos.triggerMono, s.pos.trigger, s.pos.entered, s.pos.timer,
         s.failFlag, s.sent, s.params)
  }

  /** Thread t, running alone, takes `n` steps from `s` to `e`. */
  ghost predicate Alone(s: Sys, t: nat, env: Env, n: nat, e: Sys)
    decreases n
  {
    if n == 0 then s == e
    else Shape(s) && Enabled(s, Run(t, env)) && Alone(Next(s, Run(t, env)), t, env, n - 1, e)
  }

  lemma {:induction false} AloneThen(s: Sys, t: nat, env: Env, n: nat, m: Sys, k: nat, e: Sys)
    requires Alone(s, t, env, n, m) && Alone(m, t, env, k, e)
    ensures Alone(s, t, env, n + k, e)
    decreases n
  {
    hide Next, Shape, Enabled;
    if n > 0 {
      AloneThen(Next(s, Run(t, env)), t, env, n - 1, m, k, e);
    }
  }

  lemma AloneOne(s: Sys, t: nat, env: Env)
    requires Shape(s) && Enabled(s, Run(t, env))
    ensures Alone(s, t, env, 1, Next(s, Run(t, env)))
  {
    hide Next, Shape, Enabled;
    assert Alone(Next(s, Run(t, env)), t, env, 0, Next(s, Run(t, env)));
  }

  /** Reading the cap and taking the lock. */
  lemma SoloTake(s: Sys, t: nat, env: Env, wanted: nat, cause: nat) returns (e: Sys)
    requires Inv(s) && s.lock.Free? && GoodEnv(s, env) && s.pos.ready
    requires t < |s.progs| && s.progs[t] != [] && s.progs[t][0] == RaiseUpTo(wanted, cause)
    ensures Inv(e) && Alone(s, t, env, 2, e) && GoodEnv(e, env)
    ensures var target, rest := Min(wanted, Cap(s.params)), s.progs[t][1..];
            && ViewOf(e) == Noted(ViewOf(s), target, cause, env.now)
            && e.lock == Held(t, if target > s.table.posture then Apply(s.table.posture, target, Auto) else Release(Auto))
            && e.progs == s.progs[t := (if target > s.table.posture then [AfterUp(target)] else []) + rest]
  {
    hide Inv, Alone;
    var rest := s.progs[t][1..];
    assert s.progs[t] == [RaiseUpTo(wanted, cause)] + rest;
    var s1 := SoloOp(s, t, env, RaiseUpTo(wanted, cause), rest);
    e := SoloOp(s1, t, env, Raise(Min(wanted, Cap(s.params)), cause), rest);
    AloneThen(s, t, env, 1, s1, 1, e);
  }

  /** From a change of posture to the release of the lock. */
  lemma SoloApply(s: Sys, t: nat, env: Env) returns (e: Sys)
    requires Inv(s) && HoldsLock(s, t) && s.lock.sec.Apply? && GoodEnv(s, env)
    ensures Inv(e) && Alone(s, t, env, 3, e) && GoodEnv(e, env) && e.lock.Free? && e.progs == s.progs
    ensures Good(ViewOf(s)) && s.lock.sec.target < POSTURES
    ensures ViewOf(e) == Released(Applied(ViewOf(s), s.lock.sec.target), s.lock.sec.why, env.now)
  {
    GoodView(s);
    var s1 := SoloSection(s, t, env);
    var s2 := SoloSection(s1, t, env);
    hide Inv, Alone, WithPosture, Good, Next, Enabled, Released;
    AppliedIs(s, env);
    hide SectionStep, Applied;
    AloneThen(s, t, env, 1, s1, 1, s2);
    e := SoloRelease(s2, t, env);
    AloneThen(s, t, env, 2, s2, 1, e);
  }

  lemma AppliedIs(s: Sys, env: Env)
    requires s.lock.Held? && |s.pos.entered| == POSTURES && s.lock.sec.Apply? && s.lock.sec.target < POSTURES
    ensures var s1 := SectionStep(s, env).(clock := env.now);
            var s2 := SectionStep(s1, env).(clock := env.now);
            && ViewOf(s2) == Applied(ViewOf(s), s.lock.sec.target) && s2.progs == s.progs
            && s2.lock == Held(s.lock.tid, Release(s.lock.sec.why))
            && HoldsLock(s1, s.lock.tid)
  {
    hide WithPosture;
  }

  lemma SoloSection(s: Sys, t: nat, env: Env) returns (e: Sys)
    requires Inv(s) && HoldsLock(s, t) && GoodEnv(s, env)
    ensures Shape(s) && t < |s.progs| && |s.pos.entered| == POSTURES
    ensures s.lock.sec.Apply? ==> s.lock.sec.target < POSTURES
    ensures Inv(e) && Alone(s, t, env, 1, e) && e == SectionStep(s, env).(clock := env.now) && GoodEnv(e, env)
  {
    AloneOne(s, t, env);
    NextInv(s, Run(t, env));
    hide Inv, Alone;
    e := Next(s, Run(t, env));
  }

  /** What a release adds. */
  function Released(v: View, why: Why, now: nat): View {
    match why
    case Auto => Restarted(v)
    case Operator => Restarted(v.(triggerMono := now))
    case Quiet(_, _) => v
  }

  lemma SoloRelease(s: Sys, t: nat, env: Env) returns (e: Sys)
    requires Inv(s) && HoldsLock(s, t) && s.lock.sec.Release? && GoodEnv(s, env)
    ensures Inv(e) && Alone(s, t, env, 1, e) && GoodEnv(e, env) && e.lock.Free? && e.progs == s.progs
    ensures ViewOf(e) == Released(ViewOf(s), s.lock.sec.why, env.now)
  {
    e := SoloSection(s, t, env);
    ReleasedIs(s, env);
    hide Inv, Alone, SectionStep, Released, Shape;
  }

  lemma ReleasedIs(s: Sys, env: Env)
    requires s.lock.Held? && |s.pos.entered| == POSTURES && s.lock.sec.Release?
    ensures var e := SectionStep(s, env).(clock := env.now);
            e.lock.Free? && e.progs == s.progs && ViewOf(e) == Released(ViewOf(s), s.lock.sec.why, env.now)
  {
  }

  /** One operation outside the lock. */
  lemma SoloOp(s: Sys, t: nat, env: Env, op: Op, rest: seq<Op>) returns (e: Sys)
    requires Inv(s) && s.lock.Free? && GoodEnv(s, env) && t < |s.progs| && s.progs[t] == [op] + rest
    ensures OpShape(s, op)
    ensures Inv(e) && Alone(s, t, env, 1, e) && GoodEnv(e, env)
    ensures e == Effect(s, t, op, env).(progs := s.progs[t := Push(s, op, env) + rest], clock := env.now)
  {
    assert s.progs[t][0] == op && s.progs[t][1..] == rest;
    AloneOne(s, t, env);
    NextInv(s, Run(t, env));
    hide Inv, Alone, Effect, Push;
    e := Next(s, Run(t, env));
  }

  /** What follows once the lock is free: the fail-safe alert, if that is where it went. */
  lemma SoloAfter(s: Sys, t: nat, env: Env, target: nat, rest: seq<Op>) returns (n: nat, e: Sys)
    requires Inv(s) && s.lock.Free? && GoodEnv(s, env) && t < |s.progs| && s.progs[t] == [AfterUp(target)] + rest
    ensures Inv(e) && GoodEnv(e, env)
    ensures Alone(s, t, env, n, e) && e.lock.Free? && e.progs == s.progs[t := rest]
    ensures ViewOf(e) == WentUp(ViewOf(s), target)
  {
    hide Inv, Alone;
    var s1 := SoloOp(s, t, env, AfterUp(target), rest);
    assert [] + rest == rest;
    if target != FAILSAFE {
      return 1, s1;
    }
    e := SoloOp(s1, t, env, Report(FailsafeAlert()), rest);
    n := 2;
    AloneThen(s, t, env, 1, s1, 1, e);
    assert Dispatched(FailsafeAlert(), env.topo) == [];
  }

  /** The part of a raise under the lock and after it, when it changes the posture. */
  lemma SoloUp(s: Sys, t: nat, env: Env, rest: seq<Op>) returns (n: nat, e: Sys)
    requires Inv(s) && HoldsLock(s, t) && s.lock.sec.Apply? && GoodEnv(s, env)
    requires t < |s.progs| && s.progs[t] == [AfterUp(s.lock.sec.target)] + rest
    ensures Inv(e) && GoodEnv(e, env) && Alone(s, t, env, n, e) && e.lock.Free? && e.progs == s.progs[t := rest]
    ensures |s.pos.entered| == POSTURES && s.lock.sec.target < POSTURES
    ensures ViewOf(e) == WentUp(Released(Applied(ViewOf(s), s.lock.sec.target), s.lock.sec.why, env.now), s.lock.sec.target)
  {
    hide Inv, Alone, Applied, Sound, WentUp, Released;
    var b := SoloApply(s, t, env);
    var k;
    k, e := SoloAfter(b, t, env, s.lock.sec.target, rest);
    n := 3 + k;
    AloneThen(s, t, env, 3, b, k, e);
  }

  lemma SoloRaiseUp(s: Sys, t: nat, env: Env, wanted: nat, cause: nat) returns (n: nat, e: Sys)
    requires Inv(s) && s.lock.Free? && GoodEnv(s, env) && s.pos.ready
    requires t < |s.progs| && s.progs[t] != [] && s.progs[t][0] == RaiseUpTo(wanted, cause)
    requires Min(wanted, Cap(s.params)) > s.table.posture
    ensures Alone(s, t, env, n, e) && e.lock.Free? && e.progs == s.progs[t := s.progs[t][1..]]
    ensures var target := Min(wanted, Cap(s.params));
            && target < |s.pos.entered|
            && ViewOf(e) == WentUp(Restarted(Applied(Noted(ViewOf(s), target, cause, env.now), target)), target)
  {
    hide Inv, Alone, Applied, GoodEnv, Sound, Cap, WentUp, Restarted, Noted, Min;
    var a := SoloTake(s, t, env, wanted, cause);
    var rest := s.progs[t][1..];
    var k;
    k, e := SoloUp(a, t, env, rest);
    n := 2 + k;
    AloneThen(s, t, env, 2, a, k, e);
    assert ViewOf(a).entered == ViewOf(s).entered by {
      NotedKeeps(ViewOf(s), Min(wanted, Cap(s.params)), cause, env.now);
    }
  }

  lemma NotedKeeps(v: View, target: nat, cause: nat, now: nat)
    ensures Noted(v, target, cause, now).entered == v.entered
  {
  }

  /** Undisturbed, the steps of a raise add up to the call. */
  lemma SoloRaise(s: Sys, t: nat, env: Env, wanted: nat, cause: nat) returns (n: nat, e: Sys)
    requires Inv(s) && s.lock.Free? && GoodEnv(s, env) && s.pos.ready
    requires t < |s.progs| && s.progs[t] != [] && s.progs[t][0] == RaiseUpTo(wanted, cause)
    ensures Good(ViewOf(s))
    ensures Alone(s, t, env, n, e) && e.lock.Free? && e.progs == s.progs[t := s.progs[t][1..]]
    ensures ViewOf(e) == Raised(ViewOf(s), wanted, cause, env.now)
  {
    GoodView(s);
    hide Inv, Alone, Applied, GoodEnv, Sound, Cap, WentUp, Restarted, Raised, Moved, Noted;
    if Min(wanted, Cap(s.params)) > s.table.posture {
      n, e := SoloRaiseUp(s, t, env, wanted, cause);
      RaisedUp(ViewOf(s), wanted, cause, env.now);
    } else {
      var a := SoloTake(s, t, env, wanted, cause);
      e := SoloRelease(a, t, env);
      n := 3;
      AloneThen(s, t, env, 2, a, 1, e);
      assert [] + s.progs[t][1..] == s.progs[t][1..];
      RaisedHeld(ViewOf(s), wanted, cause, env.now);
    }
  }

  lemma GoodView(s: Sys)
    requires Inv(s)
    ensures Good(ViewOf(s)) && s.table.posture < POSTURES
  {
  }

  function Sent(v: View, a: Alert): View { v.(sent := v.sent + [a]) }

  /** An alert that asks for nothing is one step. */
  lemma SoloTell(s: Sys, t: nat, env: Env, a: Alert, rest: seq<Op>) returns (e: Sys)
    requires Inv(s) && s.lock.Free? && GoodEnv(s, env) && t < |s.progs| && s.progs[t] == [Report(a)] + rest
    requires Wanted(a.code, a.level) == NORMAL
    ensures Inv(e) && Alone(s, t, env, 1, e) && e.lock.Free? && e.progs == s.progs[t := rest]
    ensures ViewOf(e) == Sent(ViewOf(s), a)
  {
    hide Inv, Alone;
    e := SoloOp(s, t, env, Report(a), rest);
    assert Dispatched(a, env.topo) == [];
    assert [] + rest == rest;
  }

  /** The operator's request takes the lock, or is turned down. */
  lemma SoloAsk(s: Sys, t: nat, env: Env, target: nat, rest: seq<Op>) returns (e: Sys)
    requires Inv(s) && s.lock.Free? && GoodEnv(s, env) && t < |s.progs| && s.progs[t] == [Operate(target)] + rest
    ensures Inv(e) && Alone(s, t, env, 1, e) && GoodEnv(e, env) && ViewOf(e) == ViewOf(s)
    ensures var tell := Report(Announcement(s.table.posture, target, WHY_OPERATOR, s.pos.trigger));
            if OperatorActs(s, target) then
              && e.lock == Held(t, Apply(s.table.posture, target, Operator))
              && e.progs == s.progs[t := (if target > s.table.posture then [AfterUp(target)] else []) + ([tell] + rest)]
            else e.lock.Free? && e.progs == s.progs[t := rest]
  {
    hide Inv, Alone;
    e := SoloOp(s, t, env, Operate(target), rest);
    var tell := Report(Announcement(s.table.posture, target, WHY_OPERATOR, s.pos.trigger));
    var up := if target > s.table.posture then [AfterUp(target)] else [];
    assert up + [tell] + rest == up + ([tell] + rest);
    assert [] + rest == rest;
  }

  /** From the lock to the return of an operator's change, the announcement still to come. */
  lemma SoloChange(s: Sys, t: nat, env: Env, rest: seq<Op>) returns (n: nat, e: Sys)
    requires Inv(s) && HoldsLock(s, t) && s.lock.sec.Apply? && s.lock.sec.why.Operator? && GoodEnv(s, env)
    requires t < |s.progs| && s.progs[t] == (if s.lock.sec.target > s.table.posture then [AfterUp(s.lock.sec.target)] else []) + rest
    ensures Inv(e) && GoodEnv(e, env) && Alone(s, t, env, n, e) && e.lock.Free? && e.progs == s.progs[t := rest]
    ensures |s.pos.entered| == POSTURES && s.lock.sec.target < POSTURES
    ensures var v := Released(Applied(ViewOf(s), s.lock.sec.target), Operator, env.now);
            ViewOf(e) == if s.lock.sec.target > s.table.posture then WentUp(v, s.lock.sec.target) else v
  {
    GoodView(s);
    hide Inv, Alone, Applied, Sound, WentUp, Restarted, Moved, Released;
    if s.lock.sec.target > s.table.posture {
      n, e := SoloUp(s, t, env, rest);
    } else {
      assert [] + rest == rest;
      n := 3;
      e := SoloApply(s, t, env);
    }
  }

  /** The closed form of the operator's request, as the machine goes about it. */
  lemma OperatedIs(s: Sys, target: nat, now: nat)
    requires Good(ViewOf(s))
    ensures var v := ViewOf(s);
            if OperatorActs(s, target) then
              var v1 := Released(Applied(v, target), Operator, now);
              Operated(v, target, now).1 ==
              Sent(if target > s.table.posture then WentUp(v1, target) else v1,
                   Announcement(s.table.posture, target, WHY_OPERATOR, s.pos.trigger))
            else Operated(v, target, now).1 == v
  {
    if OperatorActs(s, target) {
      ChangedIs(ViewOf(s), target, now);
    }
    hide Moved, Restarted, Sound, Applied;
  }

  /** Undisturbed, the steps of an operator's request that is granted. */
  lemma SoloGranted(s: Sys, t: nat, env: Env, target: nat, rest: seq<Op>) returns (n: nat, e: Sys)
    requires Inv(s) && s.lock.Free? && GoodEnv(s, env) && OperatorActs(s, target)
    requires t < |s.progs| && s.progs[t] == [Operate(target)] + rest
    ensures Alone(s, t, env, n, e) && e.lock.Free? && e.progs == s.progs[t := rest]
    ensures |s.pos.entered| == POSTURES
    ensures var v1 := Released(Applied(ViewOf(s), target), Operator, env.now);
            ViewOf(e) ==
            Sent(if target > s.table.posture then WentUp(v1, target) else v1,
                 Announcement(s.table.posture, target, WHY_OPERATOR, s.pos.trigger))
  {
    hide Inv, Alone, Sound, Applied, Released, WentUp, Sent;
    var a := SoloAsk(s, t, env, target, rest);
    var tell := Announcement(s.table.posture, target, WHY_OPERATOR, s.pos.trigger);
    assert a.table.posture == s.table.posture && a.pos.entered == s.pos.entered;
    var k, b := SoloChange(a, t, env, [Report(tell)] + rest);
    hide ViewOf;
    AloneThen(s, t, env, 1, a, k, b);
    e := SoloTell(b, t, env, tell, rest);
    n := 1 + k + 1;
    AloneThen(s, t, env, 1 + k, b, 1, e);
  }

  /** Undisturbed, the steps of an operator's request add up to the call. */
  lemma SoloOperate(s: Sys, t: nat, env: Env, target: nat) returns (n: nat, e: Sys)
    requires Inv(s) && s.lock.Free? && GoodEnv(s, env)
    requires t < |s.progs| && s.progs[t] != [] && s.progs[t][0] == Operate(target)
    ensures Good(ViewOf(s))
    ensures Alone(s, t, env, n, e) && e.lock.Free? && e.progs == s.progs[t := s.progs[t][1..]]
    ensures ViewOf(e) == Operated(ViewOf(s), target, env.now).1
  {
    GoodView(s);
    OperatedIs(s, target, env.now);
    var rest := s.progs[t][1..];
    assert s.progs[t] == [Operate(target)] + rest;
    hide Inv, Alone, Sound, Operated, Good, Released, Applied, WentUp, Sent, ViewOf;
    if OperatorActs(s, target) {
      n, e := SoloGranted(s, t, env, target, rest);
    } else {
      n := 1;
      e := SoloAsk(s, t, env, target, rest);
    }
  }

  /** The timer fires and its handler reads the decay period. */
  lemma SoloFire(s: Sys, t: nat, env: Env) returns (a: Sys, e: Sys)
    requires Inv(s) && s.lock.Free? && GoodEnv(s, env) && t < |s.progs| && s.progs[t] == [] && s.pos.timer
    ensures Shape(s) && Enabled(s, Spawn(t, DecayDue)) && a == Next(s, Spawn(t, DecayDue)) && Alone(a, t, env, 1, e)
    ensures Inv(e) && GoodEnv(e, env) && e.lock.Free? && ViewOf(e) == ViewOf(s).(timer := false)
    ensures e.progs == s.progs[t := [Decay(Min(s.params.decayS, MAX_DECAY_S))]]
  {
    NextInv(s, Spawn(t, DecayDue));
    a := Next(s, Spawn(t, DecayDue));
    hide Inv, Alone;
    assert a.progs[t] == [DecayDue] + [];
    e := SoloOp(a, t, env, DecayDue, []);
    assert [Decay(Min(s.params.decayS, MAX_DECAY_S))] + [] == [Decay(Min(s.params.decayS, MAX_DECAY_S))];
  }

  /** The handler looks at posture and time. */
  lemma SoloLook(s: Sys, t: nat, env: Env, secs: nat) returns (e: Sys)
    requires Inv(s) && s.lock.Free? && GoodEnv(s, env) && t < |s.progs| && s.progs[t] == [Decay(secs)]
    ensures Inv(e) && Alone(s, t, env, 1, e) && GoodEnv(e, env)
    ensures if DecayLooks(s, secs) && env.now >= Due(s, secs) then
              && ViewOf(e) == ViewOf(s) && e.lock == Held(t, Apply(ELEVATED, NORMAL, Quiet(secs, env.now)))
              && e.progs == s.progs[t := [Report(Announcement(ELEVATED, NORMAL, WHY_DECAY, s.pos.trigger))]]
            else
              && ViewOf(e) == ViewOf(s).(timer := s.pos.timer || DecayLooks(s, secs)) && e.lock.Free?
              && e.progs == s.progs[t := []]
  {
    hide Inv, Alone;
    assert s.progs[t] == [Decay(secs)] + [];
    e := SoloOp(s, t, env, Decay(secs), []);
    var tell := [Report(Announcement(ELEVATED, NORMAL, WHY_DECAY, s.pos.trigger))];
    var none: seq<Op> := [];
    assert tell + none == tell && none + none == none;
  }

  /** The closed form of the handler, as the machine goes about it; v is the view before the timer fired. */
  lemma DecayedIs(v: View, b: Sys, now: nat, secs: nat)
    requires Good(v) && ViewOf(b) == v.(timer := false) && secs == Min(v.params.decayS, MAX_DECAY_S)
    ensures if DecayLooks(b, secs) && now >= Due(b, secs) then
              Decayed(v, now) == Sent(Applied(ViewOf(b), NORMAL), Announcement(ELEVATED, NORMAL, WHY_DECAY, b.pos.trigger))
            else Decayed(v, now) == ViewOf(b).(timer := b.pos.timer || DecayLooks(b, secs))
  {
    hide WithPosture, Sound;
  }

  /** From the timer's expiry on, undisturbed, the steps of the handler add up to the call. */
  lemma SoloDecay(s: Sys, t: nat, env: Env) returns (n: nat, a: Sys, e: Sys)
    requires Inv(s) && s.lock.Free? && GoodEnv(s, env) && t < |s.progs| && s.progs[t] == [] && s.pos.timer
    ensures Shape(s) && Enabled(s, Spawn(t, DecayDue)) && a == Next(s, Spawn(t, DecayDue)) && Alone(a, t, env, n, e)
    ensures Good(ViewOf(s)) && e.lock.Free? && e.progs == s.progs
    ensures ViewOf(e) == Decayed(ViewOf(s), env.now)
  {
    GoodView(s);
    var b;
    a, b := SoloFire(s, t, env);
    var secs := Min(s.params.decayS, MAX_DECAY_S);
    DecayedIs(ViewOf(s), b, env.now, secs);
    assert b.progs[t := []] == s.progs;
    hide Inv, Alone, Sound, Shape, Enabled, Next, Decayed, Sent, Applied, ViewOf, Good;
    n, e := SoloHandler(b, t, env, secs);
    AloneThen(a, t, env, 1, b, n, e);
    n := 1 + n;
  }

  lemma SoloHandler(b: Sys, t: nat, env: Env, secs: nat) returns (n: nat, e: Sys)
    requires Inv(b) && b.lock.Free? && GoodEnv(b, env) && t < |b.progs| && b.progs[t] == [Decay(secs)]
    ensures Alone(b, t, env, n, e) && e.lock.Free? && e.progs == b.progs[t := []]
    ensures |b.pos.entered| == POSTURES
    ensures ViewOf(e) ==
            if DecayLooks(b, secs) && env.now >= Due(b, secs)
            then Sent(Applied(ViewOf(b), NORMAL), Announcement(ELEVATED, NORMAL, WHY_DECAY, b.pos.trigger))
            else ViewOf(b).(timer := b.pos.timer || DecayLooks(b, secs))
  {
    GoodView(b);
    hide Inv, Alone, Sound, Sent, Applied;
    var c := SoloLook(b, t, env, secs);
    n, e := 1, c;
    if DecayLooks(b, secs) && env.now >= Due(b, secs) {
      hide DecayLooks, Due, ViewOf;
      var k;
      k, e := SoloLower(c, t, env, b.pos.trigger);
      n := 1 + k;
      AloneThen(b, t, env, 1, c, k, e);
    }
  }

  lemma SoloLower(c: Sys, t: nat, env: Env, trigger: nat) returns (n: nat, e: Sys)
    requires Inv(c) && GoodEnv(c, env) && t < |c.progs|
    requires HoldsLock(c, t) && c.lock.sec.Apply? && c.lock.sec.why.Quiet? && c.lock.sec.target == NORMAL
    requires c.progs[t] == [Report(Announcement(ELEVATED, NORMAL, WHY_DECAY, trigger))]
    ensures Alone(c, t, env, n, e) && e.lock.Free? && e.progs == c.progs[t := []] && |c.pos.entered| == POSTURES
    ensures ViewOf(e) == Sent(Applied(ViewOf(c), NORMAL), Announcement(ELEVATED, NORMAL, WHY_DECAY, trigger))
  {
    var tell := Announcement(ELEVATED, NORMAL, WHY_DECAY, trigger);
    GoodView(c);
    hide Inv, Alone, Sound, Applied, Sent;
    var d := SoloApply(c, t, env);
    assert d.progs[t] == [Report(tell)] + [];
    e := SoloTell(d, t, env, tell, []);
    n := 4;
    AloneThen(c, t, env, 3, d, 1, e);
  }
}

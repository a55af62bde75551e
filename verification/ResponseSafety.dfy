/** What every step of the graduated response keeps, whatever the interleaving. */
module ResponseSafety {
  import opened Guard
  import opened Response

  // ----- Adding up over the programs -----

  function Sum(prog: seq<Op>, w: Op -> nat): nat {
    if prog == [] then 0 else w(prog[0]) + Sum(prog[1..], w)
  }

  function Total(progs: seq<seq<Op>>, w: Op -> nat): nat {
    if progs == [] then 0 else Sum(progs[0], w) + Total(progs[1..], w)
  }

  lemma {:induction false} SumConcat(a: seq<Op>, b: seq<Op>, w: Op -> nat)
    ensures Sum(a + b, w) == Sum(a, w) + Sum(b, w)
  {
    if a == [] {
      assert a + b == b;
    } else {
      SumConcat(a[1..], b, w);
      assert (a + b)[1..] == a[1..] + b;
    }
  }

  lemma {:induction false} TotalUpdate(progs: seq<seq<Op>>, t: nat, prog: seq<Op>, w: Op -> nat)
    requires t < |progs|
    ensures Total(progs[t := prog], w) + Sum(progs[t], w) == Total(progs, w) + Sum(prog, w)
  {
    if t == 0 {
      assert progs[0 := prog][1..] == progs[1..];
    } else {
      TotalUpdate(progs[1..], t - 1, prog, w);
      assert progs[t := prog][1..] == progs[1..][t - 1 := prog];
    }
  }

  lemma {:induction false} TotalIdle(progs: seq<seq<Op>>, w: Op -> nat)
    requires forall t :: 0 <= t < |progs| ==> progs[t] == []
    ensures Total(progs, w) == 0
  {
    if progs != [] {
      assert progs[0] == [];
      TotalIdle(progs[1..], w);
    }
  }

  /** What an operation does to a sum over the programs. */
  lemma TotalRun(s: Sys, t: nat, env: Env, w: Op -> nat)
    requires t < |s.progs| && s.progs[t] != [] && OpShape(s, s.progs[t][0])
    ensures Total(RunOp(s, t, env).progs, w) + w(s.progs[t][0]) ==
            Total(s.progs, w) + Sum(Push(s, s.progs[t][0], env), w)
  {
    hide Push, Effect;
    var push, rest := Push(s, s.progs[t][0], env), s.progs[t][1..];
    SumConcat(push, rest, w);
    TotalUpdate(s.progs, t, push + rest, w);
  }

  lemma TotalSpawn(s: Sys, t: nat, op: Op, w: Op -> nat)
    requires t < |s.progs| && s.progs[t] == []
    ensures Total(s.progs[t := [op]], w) == Total(s.progs, w) + w(op)
  {
    TotalUpdate(s.progs, t, [op], w);
    assert [op][1..] == [];
  }

  lemma SumOne(op: Op, w: Op -> nat)
    ensures Sum([op], w) == w(op)
  {
    assert [op][1..] == [];
  }

  lemma SumTwo(a: Op, b: Op, w: Op -> nat)
    ensures Sum([a, b], w) == w(a) + w(b)
  {
    assert [a, b][1..] == [b];
    SumOne(b, w);
  }

  /** Escalations carry no weight of their own. */
  lemma {:induction false} SiblingsLight(cpu: nat, sibs: seq<nat>, online: set<nat>, w: Op -> nat)
    requires forall c :: w(Escalate(c)) == 0
    ensures Sum(Siblings(cpu, sibs, online), w) == 0
  {
    if sibs != [] {
      SiblingsLight(cpu, sibs[1..], online, w);
      var first := if sibs[0] != cpu && sibs[0] in online then [Escalate(sibs[0])] else [];
      SumOne(Escalate(sibs[0]), w);
      SumConcat(first, Siblings(cpu, sibs[1..], online), w);
    }
  }

  lemma DispatchLight(a: Alert, topo: Topology, w: Op -> nat)
    requires forall c :: w(Escalate(c)) == 0
    requires forall target, trigger :: w(RaiseUpTo(target, trigger)) == 0
    ensures Sum(Dispatched(a, topo), w) == 0
  {
    var raise := if Wanted(a.code, a.level) > NORMAL then [RaiseUpTo(Wanted(a.code, a.level), a.code)] else [];
    SumConcat(Escalations(a, topo), raise, w);
    if raise != [] {
      SumOne(raise[0], w);
    }
    var cpu := a.p2 / U32;
    if Escalations(a, topo) != [] {
      SiblingsLight(cpu, topo.siblings(cpu), topo.online, w);
      SumOne(Escalate(cpu), w);
      SumConcat([Escalate(cpu)], Siblings(cpu, topo.siblings(cpu), topo.online), w);
    }
  }

  // ----- The table and the lock -----

  ghost predicate SectionOk(s: Sys) {
    s.lock.Held? ==> s.lock.tid < |s.progs| && SectionFits(s, s.lock.sec)
  }

  ghost predicate SectionFits(s: Sys, sec: Section) {
    match sec
    case Apply(was, target, why) =>
      && s.table.posture == was && target < POSTURES && target != was
      && (why.Auto? ==> target > was)
      && (why.Operator? && target < was && was >= HIGH ==> !s.pos.untrusted)
      && (why.Quiet? ==> was == ELEVATED && target == NORMAL && why.secs > 0 && s.pos.triggerMono + why.secs * SEC <= why.at)
    case Enter(target, why) => s.table.posture == target && target < POSTURES && (why.Quiet? ==> target == NORMAL)
    case Release(why) => why.Quiet? ==> s.table.posture == NORMAL
  }

  /** Failsafe iff FAILSAFE, FULL everywhere from HIGH on, each strategy its base or FULL, the digest current. */
  ghost predicate TableOk(s: Sys) {
    && Sound(s.table)
    && (!s.hashFailed ==> s.sealed == s.table)
    && s.pos.triggerMono <= s.clock < KTIME
    && forall t, i :: 0 <= t < |s.progs| && 0 <= i < |s.progs[t]| ==> SecsOk(s.progs[t][i])
  }

  predicate SecsOk(op: Op) {
    op.Decay? ==> op.secs <= MAX_DECAY_S
  }

  lemma {:induction false} SiblingsShape(s: Sys, cpu: nat, sibs: seq<nat>, online: set<nat>)
    ensures forall i :: 0 <= i < |Siblings(cpu, sibs, online)| ==> Siblings(cpu, sibs, online)[i].Escalate?
  {
    if sibs != [] {
      SiblingsShape(s, cpu, sibs[1..], online);
    }
  }

  lemma WantedBounded(code: nat, level: nat)
    ensures Wanted(code, level) < POSTURES
  {
  }

  lemma PushShape(s: Sys, op: Op, env: Env)
    requires OpShape(s, op)
    ensures forall i :: 0 <= i < |Push(s, op, env)| ==> OpShape(s, Push(s, op, env)[i]) && SecsOk(Push(s, op, env)[i])
  {
    if op.Report? {
      hide Wanted;
      WantedBounded(op.a.code, op.a.level);
      var cpu := op.a.p2 / U32;
      SiblingsShape(s, cpu, env.topo.siblings(cpu), env.topo.online);
    }
  }

  lemma EffectTable(s: Sys, t: nat, op: Op, env: Env)
    requires OpShape(s, op) && Sound(s.table)
    ensures Sound(Effect(s, t, op, env).table) && Effect(s, t, op, env).table.posture == s.table.posture
    ensures |Effect(s, t, op, env).table.cpus| == |s.table.cpus|
    ensures (!s.hashFailed ==> s.sealed == s.table) ==>
              !Effect(s, t, op, env).hashFailed ==> Effect(s, t, op, env).sealed == Effect(s, t, op, env).table
  {
    hide Sound;
    match op {
      case Online(cpu, p) => SectionsKeepSound(s.table, cpu, p, NORMAL);
      case Escalate(cpu) => SectionsKeepSound(s.table, cpu, Probe(0, 0, 0, 0, 0, 0), NORMAL);
      case Relax(cpu) => SectionsKeepSound(s.table, cpu, Probe(0, 0, 0, 0, 0, 0), NORMAL);
      case _ =>
    }
  }

  lemma ProgsKept(s: Sys, step: Step)
    requires Shape(s) && TableOk(s) && Enabled(s, step)
    ensures forall t, i :: 0 <= t < |Next(s, step).progs| && 0 <= i < |Next(s, step).progs[t]| ==>
              OpShape(s, Next(s, step).progs[t][i]) && SecsOk(Next(s, step).progs[t][i])
  {
    hide Push, Effect, OpShape, SecsOk, Sound;
    var s' := Next(s, step);
    match step {
      case Run(t, env) =>
        if !HoldsLock(s, t) {
          var op := s.progs[t][0];
          PushShape(s, op, env);
          assert s'.progs == s.progs[t := Push(s, op, env) + s.progs[t][1..]];
        }
      case Spawn(t, op) => SpawnShape(s, op);
      case _ =>
    }
  }

  lemma SpawnShape(s: Sys, op: Op)
    requires Root(s, op)
    ensures OpShape(s, op) && SecsOk(op)
  {
  }

  /** No product of seconds and times leaves 64 bits, so the due time is the real one. */
  lemma DueExact(s: Sys, secs: nat)
    requires s.pos.triggerMono < KTIME && secs <= MAX_DECAY_S
    ensures Due(s, secs) == s.pos.triggerMono + secs * SEC
  {
    assert secs * SEC <= MAX_DECAY_S * SEC;
  }

  lemma SameSize(s: Sys, step: Step)
    requires Shape(s) && Sound(s.table) && Enabled(s, step)
    ensures |Next(s, step).table.cpus| == |s.table.cpus| && |Next(s, step).progs| == |s.progs|
    ensures |Next(s, step).pos.entered| == POSTURES
  {
    match step {
      case Run(t, env) =>
        if HoldsLock(s, t) {
          hide Sound;
        } else {
          EffectTable(s, t, s.progs[t][0], env);
          EffectEntered(s, t, s.progs[t][0], env);
          hide Sound, Effect, Push;
        }
      case _ => hide Sound;
    }
  }

  lemma EffectEntered(s: Sys, t: nat, op: Op, env: Env)
    requires OpShape(s, op)
    ensures Effect(s, t, op, env).pos.entered == s.pos.entered
  {
  }

  lemma EffectClock(s: Sys, t: nat, op: Op, env: Env)
    requires OpShape(s, op) && GoodEnv(s, env) && s.pos.triggerMono <= s.clock
    ensures Effect(s, t, op, env).pos.triggerMono <= env.now
    ensures Effect(s, t, op, env).lock.Held? && Effect(s, t, op, env).lock.sec.Enter? ==> s.lock == Effect(s, t, op, env).lock
  {
  }

  lemma SectionTable(s: Sys, env: Env)
    requires Shape(s) && TableOk(s) && SectionOk(s) && s.lock.Held? && GoodEnv(s, env)
    ensures var s' := SectionStep(s, env); Sound(s'.table) && (!s'.hashFailed ==> s'.sealed == s'.table) && s'.pos.triggerMono <= env.now
  {
    hide Sound;
    if s.lock.sec.Apply? {
      SectionsKeepSound(s.table, 0, Probe(0, 0, 0, 0, 0, 0), s.lock.sec.target);
    }
  }

  /** After a section the digest is current exactly when it was computed, or already belonged to the new table. */
  lemma SealedExactly(s: Sys, t: Table, hashed: bool)
    ensures var s' := Guarded(s, t, hashed); s'.sealed == s'.table <==> hashed || s.sealed == t
  {
  }

  lemma TableKept(s: Sys, step: Step)
    requires Shape(s) && TableOk(s) && SectionOk(s) && Enabled(s, step)
    ensures Shape(Next(s, step)) && TableOk(Next(s, step))
  {
    ProgsKept(s, step);
    SameSize(s, step);
    match step {
      case Run(t, env) =>
        if HoldsLock(s, t) {
          SectionTable(s, env);
          hide Sound;
        } else {
          hide Sound, Effect, Push;
          EffectTable(s, t, s.progs[t][0], env);
          EffectClock(s, t, s.progs[t][0], env);
        }
      case _ => hide Sound;
    }
  }

  /** Without the lock nothing it protects is touched. */
  lemma EffectUnlocked(s: Sys, t: nat, op: Op, env: Env)
    requires OpShape(s, op) && !NeedsLock(op)
    ensures var s' := Effect(s, t, op, env);
            s'.lock == s.lock && s'.pos == s.pos && s'.hist == s.hist && s'.entries == s.entries && s'.params == s.params
    ensures Effect(s, t, op, env).table.posture == s.table.posture
  {
  }

  lemma EffectTakes(s: Sys, t: nat, op: Op, env: Env)
    requires OpShape(s, op) && SecsOk(op) && TableOk(s) && s.lock.Free? && NeedsLock(op) && t < |s.progs|
    ensures SectionOk(Effect(s, t, op, env))
  {
    hide Sound;
    if op.Decay? {
      DueExact(s, op.secs);
    }
  }

  lemma SectionAdvances(s: Sys, env: Env)
    requires Shape(s) && SectionOk(s) && s.lock.Held?
    ensures SectionOk(SectionStep(s, env))
  {
  }

  lemma SectionKeptByOp(s: Sys, t: nat, env: Env)
    requires Shape(s) && TableOk(s) && SectionOk(s) && Enabled(s, Run(t, env)) && !HoldsLock(s, t)
    ensures SectionOk(Effect(s, t, s.progs[t][0], env))
  {
    var op := s.progs[t][0];
    if NeedsLock(op) {
      EffectTakes(s, t, op, env);
    } else {
      EffectUnlocked(s, t, op, env);
      EffectThreads(s, t, op, env);
    }
    hide Effect, Sound;
  }

  lemma EffectThreads(s: Sys, t: nat, op: Op, env: Env)
    requires OpShape(s, op)
    ensures Effect(s, t, op, env).progs == s.progs
  {
  }

  /** The lock section looks at nothing the programs and the clock hold. */
  lemma SectionElsewhere(s: Sys, progs: seq<seq<Op>>, clock: nat)
    requires SectionOk(s) && |progs| == |s.progs|
    ensures SectionOk(s.(progs := progs, clock := clock))
  {
  }

  lemma SectionKept(s: Sys, step: Step)
    requires Shape(s) && TableOk(s) && SectionOk(s) && Enabled(s, step)
    ensures SectionOk(Next(s, step))
  {
    match step {
      case Run(t, env) =>
        if HoldsLock(s, t) {
          SectionAdvances(s, env);
          SectionElsewhere(SectionStep(s, env), SectionStep(s, env).progs, env.now);
          hide SectionStep, Sound, SectionOk;
        } else {
          var op := s.progs[t][0];
          SectionKeptByOp(s, t, env);
          EffectThreads(s, t, op, env);
          SectionElsewhere(Effect(s, t, op, env), RunOp(s, t, env).progs, env.now);
          hide Effect, Push, Sound, SectionOk;
        }
      case _ => hide Sound;
    }
  }
}

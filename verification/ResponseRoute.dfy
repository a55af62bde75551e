/** What every alert leads to, code by code, among the other threads. */
module ResponseRoute {
  import opened Guard
  import opened Response
  import opened ResponseSafety
  import opened ResponseHistory
  import opened ResponseRuns

  // ----- The documented answers, with the codes and levels of the interface -----

  /** Corrupt state at any level; a text patch or dispatch hook at CRITICAL. */
  predicate AsksFailsafe(a: Alert) {
    a.code == 0x30 || ((a.code == 0x21 || a.code == 0x22) && a.level >= 2)
  }

  /** An IDT hook, a control register or a vulnerable driver at CRITICAL. */
  predicate AsksHigh(a: Alert) {
    (a.code == 0x20 || a.code == 0x23 || a.code == 0x25) && a.level >= 2
  }

  /** Devices and keyboard filters at any level, a suspicious module, a cache anomaly or refused load at CRITICAL. */
  predicate AsksElevated(a: Alert) {
    || a.code == 0x10 || a.code == 0x11 || a.code == 0x12 || a.code == 0x13 || a.code == 0x15
    || (a.code == 0x24 && a.level >= 1)
    || (a.code == 0x25 && a.level < 2)
    || ((a.code == 0x01 || a.code == 0x02 || a.code == 0x26) && a.level >= 2)
  }

  function PostureFor(a: Alert): nat {
    if AsksFailsafe(a) then 3 else if AsksHigh(a) then 2 else if AsksElevated(a) then 1 else 0
  }

  lemma WantedIs(a: Alert)
    ensures Wanted(a.code, a.level) == PostureFor(a) < POSTURES
  {
  }

  /** CPU c is the one a cache anomaly at CRITICAL names, or an online CPU of the same core. */
  predicate OnCore(a: Alert, topo: Topology, c: nat) {
    var cpu := a.p2 / 0x1_0000_0000;
    && (a.code == 0x01 || a.code == 0x02) && a.level >= 2 && cpu in topo.online
    && (c == cpu || (c in topo.siblings(cpu) && c in topo.online))
  }

  lemma {:induction false} SiblingsAre(cpu: nat, sibs: seq<nat>, online: set<nat>)
    ensures var ops := Siblings(cpu, sibs, online);
            && (forall i :: 0 <= i < |ops| ==> ops[i].Escalate?)
            && (forall c :: Escalate(c) in ops <==> c in sibs && c in online && c != cpu)
  {
    if sibs != [] {
      SiblingsAre(cpu, sibs[1..], online);
      assert sibs == [sibs[0]] + sibs[1..];
    }
  }

  /** The escalations an alert brings are those of its core. */
  lemma EscalationsAre(a: Alert, topo: Topology)
    ensures var ops := Escalations(a, topo);
            && (forall i :: 0 <= i < |ops| ==> ops[i].Escalate?)
            && (forall c :: Escalate(c) in ops <==> OnCore(a, topo, c))
  {
    var cpu := a.p2 / U32;
    SiblingsAre(cpu, topo.siblings(cpu), topo.online);
  }

  // ----- An alert raises the posture -----

  /** The operations before the last n lead to posture p: escalations, then the alert or the raise it asked for. */
  ghost predicate Leads(ops: seq<Op>, n: nat, p: nat)
    decreases |ops|
  {
    && |ops| > n
    && match ops[0]
       case Escalate(_) => Leads(ops[1..], n, p)
       case Report(a) => PostureFor(a) >= p
       case RaiseUpTo(target, _) => target >= p
       case Raise(target, _) => target >= p
       case _ => false
  }

  /** Thread t, which has n operations to do afterwards, is on its way to p. */
  ghost predicate OnTheWay(s: Sys, t: nat, n: nat, p: nat) {
    if HoldsLock(s, t) then s.lock.sec.Apply? && s.lock.sec.target >= p
    else t < |s.progs| && Leads(s.progs[t], n, p)
  }

  lemma {:induction false} LeadsAfter(escs: seq<Op>, ops: seq<Op>, n: nat, p: nat)
    requires (forall i :: 0 <= i < |escs| ==> escs[i].Escalate?) && Leads(ops, n, p)
    ensures Leads(escs + ops, n, p)
    decreases |escs|
  {
    if escs == [] {
      assert escs + ops == ops;
    } else {
      LeadsAfter(escs[1..], ops, n, p);
      assert (escs + ops)[1..] == escs[1..] + ops;
    }
  }

  lemma DispatchLeads(a: Alert, topo: Topology, rest: seq<Op>, p: nat)
    requires 0 < p <= PostureFor(a)
    ensures Leads(Dispatched(a, topo) + rest, |rest|, p)
  {
    hide Wanted, PostureFor, Escalations;
    WantedIs(a);
    EscalationsAre(a, topo);
    var escs, up := Escalations(a, topo), [RaiseUpTo(Wanted(a.code, a.level), a.code)];
    LeadsAfter(escs, up + rest, |rest|, p);
    assert Dispatched(a, topo) + rest == escs + (up + rest);
  }

  lemma OwnStep(s: Sys, t: nat, env: Env, n: nat, p: nat)
    requires Inv(s) && Enabled(s, Run(t, env)) && OnTheWay(s, t, n, p) && p > 0
    requires Cap(s.params) >= p && s.pos.ready && s.table.posture < p
    ensures var s' := Next(s, Run(t, env)); OnTheWay(s', t, n, p) || s'.table.posture >= p
  {
    if !HoldsLock(s, t) {
      var op, rest := s.progs[t][0], s.progs[t][1..];
      if op.Report? {
        hide Dispatched, Inv, PostureFor;
        DispatchLeads(op.a, env.topo, rest, p);
        LeadsFewer(Dispatched(op.a, env.topo) + rest, |rest|, n, p);
      } else if op.Escalate? {
        assert [] + rest == rest;
      } else {
        var push := Push(s, op, env);
        assert push != [] ==> (push + rest)[0] == push[0];
      }
    }
  }

  lemma {:induction false} LeadsFewer(ops: seq<Op>, m: nat, n: nat, p: nat)
    requires Leads(ops, m, p) && n <= m
    ensures Leads(ops, n, p)
    decreases |ops|
  {
    if ops[0].Escalate? {
      LeadsFewer(ops[1..], m, n, p);
    }
  }

  lemma OthersStep(s: Sys, t: nat, step: Step, n: nat, p: nat)
    requires Inv(s) && Enabled(s, step) && OnTheWay(s, t, n, p) && !(step.Run? && step.t == t)
    ensures OnTheWay(Next(s, step), t, n, p)
  {
    if HoldsLock(s, t) {
      LockStays(s, step, t);
    } else {
      hide Inv, Next;
      ProgStays(s, step, t);
    }
  }

  /** What thread t does with the lock is its own business. */
  lemma LockStays(s: Sys, step: Step, t: nat)
    requires Inv(s) && Enabled(s, step) && HoldsLock(s, t) && !(step.Run? && step.t == t)
    ensures Next(s, step).lock == s.lock
  {
    match step {
      case Run(o, env) =>
        EffectUnlocked(s, o, s.progs[o][0], env);
        hide Effect, Push, Sound;
      case _ =>
    }
  }

  /** Posture p was reached at some moment from i on, up to j. */
  ghost predicate Reached(ss: seq<Sys>, i: nat, j: nat, p: nat) {
    exists m :: i <= m <= j && m < |ss| && ss[m].table.posture >= p
  }

  /** The cap and the ladder let a raise to p through. */
  predicate Unhindered(s: Sys, p: nat) {
    Cap(s.params) >= p && s.pos.ready
  }

  lemma {:induction false} WayOn(ss: seq<Sys>, steps: seq<Step>, t: nat, i: nat, j: nat, n: nat, p: nat)
    requires Behavior(ss, steps) && i <= j < |ss| && OnTheWay(ss[i], t, n, p) && p > 0
    requires forall m :: i <= m < j ==> Unhindered(ss[m], p)
    ensures OnTheWay(ss[j], t, n, p) || Reached(ss, i, j, p)
    decreases j
  {
    hide Inv, Init, Enabled, Next, OnTheWay, Cap;
    if i < j {
      WayOn(ss, steps, t, i, j - 1, n, p);
      Always(ss, steps, j - 1);
      assert Moves(ss[j - 1], steps[j - 1], ss[j]);
      assert Unhindered(ss[j - 1], p);
      if !Reached(ss, i, j - 1, p) {
        WayStep(ss[j - 1], steps[j - 1], t, n, p);
      }
    }
  }

  lemma WayStep(s: Sys, step: Step, t: nat, n: nat, p: nat)
    requires Inv(s) && Enabled(s, step) && OnTheWay(s, t, n, p) && p > 0 && Unhindered(s, p) && s.table.posture < p
    ensures OnTheWay(Next(s, step), t, n, p) || Next(s, step).table.posture >= p
  {
    hide Inv, Enabled, Next, OnTheWay, Cap;
    if step.Run? && step.t == t {
      OwnStep(s, t, step.env, n, p);
    } else {
      OthersStep(s, t, step, n, p);
    }
  }

  /**
   However threads interleave: once thread t, which reports `a` at step i, has nothing left to do but what came after
   the report, the posture the alert asks for has been reached in between, unless the cap or the shutdown of the
   ladder was in the way.
   */
  lemma AlertRaises(ss: seq<Sys>, steps: seq<Step>, t: nat, env: Env, i: nat, j: nat, a: Alert, p: nat)
    requires Behavior(ss, steps) && i < j < |ss| && steps[i] == Run(t, env)
    requires t < |ss[i].progs| && !HoldsLock(ss[i], t) && ss[i].progs[t] != [] && ss[i].progs[t][0] == Report(a)
    requires !HoldsLock(ss[j], t) && t < |ss[j].progs| && |ss[j].progs[t]| < |ss[i].progs[t]|
    requires forall m :: i < m < j ==> Unhindered(ss[m], p)
    requires || (AsksFailsafe(a) && p == FAILSAFE)
             || (AsksHigh(a) && p == HIGH)
             || (AsksElevated(a) && p == ELEVATED)
    ensures Reached(ss, i + 1, j, p)
  {
    assert Moves(ss[i], steps[i], ss[i + 1]);
    var rest := ss[i].progs[t][1..];
    DispatchLeads(a, env.topo, rest, p);
    Reports(ss[i], t, env);
    hide Inv, Init, Enabled, Next, Cap, Behavior, Reached;
    WayOn(ss, steps, t, i + 1, j, |rest|, p);
  }

  lemma Reports(s: Sys, t: nat, env: Env)
    requires Shape(s) && Enabled(s, Run(t, env)) && !HoldsLock(s, t) && s.progs[t][0].Report?
    ensures var s' := Next(s, Run(t, env));
            && t < |s'.progs| && !HoldsLock(s', t)
            && s'.progs[t] == Dispatched(s.progs[t][0].a, env.topo) + s.progs[t][1..]
  {
    hide Dispatched;
  }

  // ----- Nothing else does -----

  /** One of the alerts sent, under this code, asks for p or more. */
  ghost predicate Asked(sent: seq<Alert>, p: nat, code: nat) {
    exists k :: 0 <= k < |sent| && sent[k].code == code && PostureFor(sent[k]) >= p
  }

  ghost predicate OpAsked(sent: seq<Alert>, op: Op) {
    (op.RaiseUpTo? || op.Raise?) && op.target > NORMAL ==> Asked(sent, op.target, op.trigger)
  }

  ghost predicate ProgAsked(sent: seq<Alert>, ops: seq<Op>) {
    forall i :: 0 <= i < |ops| ==> OpAsked(sent, ops[i])
  }

  ghost predicate EventAsked(sent: seq<Alert>, e: Event) {
    e.Changed? && e.why.Auto? ==> exists code :: Asked(sent, e.target, code)
  }

  /** Every raise under way or done was asked for by an alert that was sent. */
  ghost predicate AllAsked(s: Sys) {
    && (forall t :: 0 <= t < |s.progs| ==> ProgAsked(s.sent, s.progs[t]))
    && (s.lock.Held? && s.lock.sec.Apply? ==> EventAsked(s.sent, Changed(s.lock.sec.was, s.lock.sec.target, s.lock.sec.why)))
    && (forall i :: 0 <= i < |s.hist| ==> EventAsked(s.sent, s.hist[i]))
  }

  lemma AskedLater(sent: seq<Alert>, sent': seq<Alert>, p: nat, code: nat)
    requires Asked(sent, p, code) && sent <= sent'
    ensures Asked(sent', p, code)
  {
  }

  lemma OpsLater(sent: seq<Alert>, sent': seq<Alert>, ops: seq<Op>)
    requires ProgAsked(sent, ops) && sent <= sent'
    ensures ProgAsked(sent', ops)
  {
    hide Asked;
    forall i | 0 <= i < |ops|
      ensures OpAsked(sent', ops[i])
    {
      if (ops[i].RaiseUpTo? || ops[i].Raise?) && ops[i].target > NORMAL {
        AskedLater(sent, sent', ops[i].target, ops[i].trigger);
      }
    }
  }

  lemma EventLater(sent: seq<Alert>, sent': seq<Alert>, e: Event)
    requires EventAsked(sent, e) && sent <= sent'
    ensures EventAsked(sent', e)
  {
    hide Asked;
    if e.Changed? && e.why.Auto? {
      var code :| Asked(sent, e.target, code);
      AskedLater(sent, sent', e.target, code);
    }
  }

  /** What an operation leaves to be done was asked for too. */
  lemma PushAsked(s: Sys, op: Op, env: Env)
    requires OpShape(s, op) && OpAsked(s.sent, op)
    ensures ProgAsked(s.sent + if op.Report? then [op.a] else [], Push(s, op, env))
  {
    if op.Report? {
      WantedIs(op.a);
      EscalationsAre(op.a, env.topo);
      hide Wanted, Escalations, PostureFor;
      var sent := s.sent + [op.a];
      assert sent[|s.sent|] == op.a;
      assert Asked(sent, PostureFor(op.a), op.a.code);
    } else if op.RaiseUpTo? && Min(op.target, Cap(s.params)) > NORMAL {
      hide PostureFor;
      var k :| 0 <= k < |s.sent| && s.sent[k].code == op.trigger && PostureFor(s.sent[k]) >= op.target;
      assert s.sent + [] == s.sent;
      assert Asked(s.sent, Min(op.target, Cap(s.params)), op.trigger);
    }
  }

  /** An operation takes the lock for what it was asked, and records nothing else. */
  lemma EffectAsked(s: Sys, t: nat, op: Op, env: Env)
    requires OpShape(s, op) && OpAsked(s.sent, op)
    ensures var s' := Effect(s, t, op, env);
            && s'.sent == s.sent + (if op.Report? then [op.a] else [])
            && (s'.lock == s.lock || (s'.lock.Held? && (s'.lock.sec.Apply? ==>
                  EventAsked(s.sent, Changed(s'.lock.sec.was, s'.lock.sec.target, s'.lock.sec.why)))))
            && (s'.hist == s.hist || s'.hist == s.hist + [Counted(env.now)])
  {
    hide Asked;
  }

  lemma SectionAsked(s: Sys, env: Env)
    requires Shape(s) && s.lock.Held? && AllAsked(s)
    ensures AllAsked(SectionStep(s, env))
  {
    hide Asked, ProgAsked;
  }

  lemma NextAsked(s: Sys, step: Step)
    requires Shape(s) && Enabled(s, step) && AllAsked(s)
    ensures AllAsked(Next(s, step))
  {
    hide Shape, Asked, ProgAsked;
    match step {
      case Run(t, env) =>
        if HoldsLock(s, t) {
          SectionAsked(s, env);
          hide SectionStep;
        } else {
          RunAsked(s, t, env);
          hide RunOp;
        }
      case Spawn(t, op) =>
        RootAsked(s, op);
      case _ =>
    }
  }

  lemma RootAsked(s: Sys, op: Op)
    requires Root(s, op)
    ensures ProgAsked(s.sent, [op])
  {
  }

  lemma RunAsked(s: Sys, t: nat, env: Env)
    requires Shape(s) && Enabled(s, Run(t, env)) && !HoldsLock(s, t) && AllAsked(s)
    ensures AllAsked(RunOp(s, t, env))
  {
    var op, rest := s.progs[t][0], s.progs[t][1..];
    PushAsked(s, op, env);
    EffectAsked(s, t, op, env);
    hide Effect, Push, Asked, OpAsked, EventAsked, Shape;
    var s' := RunOp(s, t, env);
    assert s'.sent == s.sent + (if op.Report? then [op.a] else []);
    forall u | 0 <= u < |s.progs|
      ensures ProgAsked(s'.sent, s'.progs[u])
    {
      OpsLater(s.sent, s'.sent, s.progs[u]);
    }
    forall i | 0 <= i < |s.hist|
      ensures EventAsked(s'.sent, s.hist[i])
    {
      EventLater(s.sent, s'.sent, s.hist[i]);
    }
    CountedAsked(s'.sent, env.now);
    if s'.lock.Held? && s'.lock.sec.Apply? {
      EventLater(s.sent, s'.sent, Changed(s'.lock.sec.was, s'.lock.sec.target, s'.lock.sec.why));
    }
  }

  lemma CountedAsked(sent: seq<Alert>, at: nat)
    ensures EventAsked(sent, Counted(at))
  {
  }

  /** Over every run: each automatic change of posture was asked for by an alert sent before. */
  lemma {:induction false} RaisesAreAsked(ss: seq<Sys>, steps: seq<Step>, i: nat)
    requires Behavior(ss, steps) && i < |ss|
    ensures AllAsked(ss[i])
    ensures forall k :: 0 <= k < |ss[i].hist| && ss[i].hist[k].Changed? && ss[i].hist[k].why.Auto? ==>
              exists code :: Asked(ss[i].sent, ss[i].hist[k].target, code)
  {
    hide Enabled, Next, Asked, ProgAsked, Shape;
    if i > 0 {
      RaisesAreAsked(ss, steps, i - 1);
      assert Moves(ss[i - 1], steps[i - 1], ss[i]);
      NextAsked(ss[i - 1], steps[i - 1]);
    } else {
      IdleAsked(ss[0]);
    }
    assert forall k :: 0 <= k < |ss[i].hist| ==> EventAsked(ss[i].sent, ss[i].hist[k]);
  }

  lemma IdleAsked(s: Sys)
    requires Init(s)
    ensures AllAsked(s)
  {
  }
}

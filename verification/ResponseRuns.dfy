/** Theorems about every run of the graduated response. */
module ResponseRuns {
  import opened Guard
  import opened Response
  import opened ResponseSafety
  import opened ResponseHistory

  // ----- The history explains the posture -----

  /** The posture after the changes of `h`. */
  function PostureOf(h: seq<Event>): nat {
    if h == [] then NORMAL
    else if h[|h| - 1].Changed? then h[|h| - 1].target
    else PostureOf(h[..|h| - 1])
  }

  /** Nothing counted within `secs` seconds before `at`. */
  ghost predicate QuietSince(h: seq<Event>, secs: nat, at: nat) {
    forall e :: e in h && e.Counted? ==> e.at + secs * SEC <= at
  }

  /** A change starts from the posture of its past; an automatic one goes up, or down after a quiet period. */
  ghost predicate LinkOk(h: seq<Event>, e: Event) {
    e.Changed? ==>
      && e.was == PostureOf(h) && e.was != e.target && e.target < POSTURES
      && (e.why.Auto? ==> e.was < e.target)
      && (e.why.Quiet? ==> e.was == ELEVATED && e.target == NORMAL && e.why.secs > 0 && QuietSince(h, e.why.secs, e.why.at))
  }

  ghost predicate Explained(h: seq<Event>) {
    h == [] || (Explained(h[..|h| - 1]) && LinkOk(h[..|h| - 1], h[|h| - 1]))
  }

  ghost predicate CountedBy(h: seq<Event>, m: nat) {
    forall e :: e in h && e.Counted? ==> e.at <= m
  }

  ghost predicate HistoryOk(s: Sys) {
    PostureOf(s.hist) == s.table.posture && Explained(s.hist) && CountedBy(s.hist, s.pos.triggerMono)
  }

  lemma Append(h: seq<Event>, e: Event)
    ensures PostureOf(h + [e]) == if e.Changed? then e.target else PostureOf(h)
    ensures Explained(h + [e]) <==> Explained(h) && LinkOk(h, e)
  {
    assert (h + [e])[..|h|] == h;
  }

  lemma SectionHistory(s: Sys, env: Env)
    requires Shape(s) && HistoryOk(s) && SectionOk(s) && s.lock.Held? && GoodEnv(s, env) && s.pos.triggerMono <= s.clock
    ensures HistoryOk(SectionStep(s, env))
  {
    hide PostureOf, Explained;
    match s.lock.sec
    case Apply(was, target, why) => Append(s.hist, Changed(was, target, why));
    case Enter(target, why) =>
    case Release(why) => Append(s.hist, Counted(env.now));
  }

  lemma EffectHistory(s: Sys, t: nat, op: Op, env: Env)
    requires OpShape(s, op) && HistoryOk(s) && GoodEnv(s, env) && s.pos.triggerMono <= s.clock
    ensures var s' := Effect(s, t, op, env);
            PostureOf(s'.hist) == s.table.posture && Explained(s'.hist) && CountedBy(s'.hist, s'.pos.triggerMono)
  {
    hide PostureOf, Explained;
    if op.Raise? {
      Append(s.hist, Counted(env.now));
    }
  }

  lemma HistoryKept(s: Sys, step: Step)
    requires Shape(s) && TableOk(s) && SectionOk(s) && HistoryOk(s) && Enabled(s, step)
    ensures HistoryOk(Next(s, step))
  {
    match step {
      case Run(t, env) =>
        if HoldsLock(s, t) {
          SectionHistory(s, env);
          hide PostureOf, Explained, SectionStep, Sound;
        } else {
          EffectHistory(s, t, s.progs[t][0], env);
          EffectTable(s, t, s.progs[t][0], env);
          hide PostureOf, Explained, Effect, Push, Sound;
        }
      case _ => hide PostureOf, Explained, Sound;
    }
  }

  // ----- Runs -----

  ghost predicate Inv(s: Sys) {
    Shape(s) && TableOk(s) && SectionOk(s) && EntriesOk(s) && GateOk(s) && HistoryOk(s)
  }

  /** Every thread idle, posture NORMAL, nothing counted. */
  ghost predicate Init(s: Sys) {
    && Sound(s.table) && s.table.posture == NORMAL && s.sealed == s.table && !s.hashFailed
    && s.lock.Free? && s.pos == Pos(true, false, 0, 0, [1, 0, 0, 0], false) && s.clock < KTIME
    && s.sent == [] && s.gate == Gate(0, 0, 0, 0, 0) && s.entries == 0 && s.hist == [] && !s.failFlag
    && forall t :: 0 <= t < |s.progs| ==> s.progs[t] == []
  }

  lemma InitInv(s: Sys)
    requires Init(s)
    ensures Inv(s)
  {
    TotalIdle(s.progs, Untold);
    TotalIdle(s.progs, Refusing);
    TotalIdle(s.progs, Undecided);
  }

  lemma NextInv(s: Sys, step: Step)
    requires Inv(s) && Enabled(s, step)
    ensures Inv(Next(s, step))
  {
    hide Shape, TableOk, SectionOk, EntriesOk, GateOk, HistoryOk;
    PostureBounded(s);
    TableKept(s, step);
    SectionKept(s, step);
    EntriesKept(s, step);
    GateKept(s, step);
    HistoryKept(s, step);
  }

  lemma PostureBounded(s: Sys)
    requires TableOk(s)
    ensures s.table.posture < POSTURES
  {
  }

  ghost predicate Moves(s: Sys, step: Step, s': Sys) {
    Shape(s) && Enabled(s, step) && s' == Next(s, step)
  }

  ghost predicate Behavior(ss: seq<Sys>, steps: seq<Step>) {
    && |ss| == |steps| + 1 && Init(ss[0])
    && forall i :: 0 <= i < |steps| ==> Moves(ss[i], steps[i], ss[i + 1])
  }

  /** In every reachable state of every interleaving. */
  lemma {:induction false} Always(ss: seq<Sys>, steps: seq<Step>, i: nat)
    requires Behavior(ss, steps) && i < |ss|
    ensures Inv(ss[i])
  {
    hide Inv, Init, Enabled, Next;
    if i == 0 {
      InitInv(ss[0]);
    } else {
      Always(ss, steps, i - 1);
      assert Moves(ss[i - 1], steps[i - 1], ss[i]);
      NextInv(ss[i - 1], steps[i - 1]);
    }
  }

  /** Once every call has returned, each entry into FAILSAFE was counted and announced exactly once. */
  lemma AllTold(ss: seq<Sys>, steps: seq<Step>, i: nat)
    requires Behavior(ss, steps) && i < |ss|
    requires ss[i].lock.Free? && forall t :: 0 <= t < |ss[i].progs| ==> ss[i].progs[t] == []
    ensures |ss[i].pos.entered| == POSTURES
    ensures ss[i].entries == ss[i].pos.entered[FAILSAFE] == Told(ss[i].sent)
    ensures ss[i].gate.blocked == ss[i].gate.refused <= ss[i].gate.denyHits + ss[i].gate.lockHits
  {
    hide Init, Enabled, Next;
    Always(ss, steps, i);
    TotalIdle(ss[i].progs, Untold);
    TotalIdle(ss[i].progs, Refusing);
  }

  // ----- Raising -----

  /** The posture there will be when the lock is released. */
  function Outcome(s: Sys): nat {
    if s.lock.Held? && s.lock.sec.Apply? then s.lock.sec.target else s.table.posture
  }

  function Max(a: nat, b: nat): nat { if a < b then b else a }

  /** An automatic raise yields the higher of the old posture and the capped target. */
  lemma RaiseYields(s: Sys, t: nat, env: Env)
    requires Inv(s) && Enabled(s, Run(t, env)) && !HoldsLock(s, t) && s.progs[t][0].Raise? && s.pos.ready
    ensures Outcome(Next(s, Run(t, env))) == Max(s.table.posture, s.progs[t][0].target)
  {
  }

  lemma CappedOnce(s: Sys, t: nat, env: Env)
    requires Inv(s) && Enabled(s, Run(t, env)) && !HoldsLock(s, t) && s.progs[t][0].RaiseUpTo?
    ensures var op := s.progs[t][0];
            Next(s, Run(t, env)).progs[t] == [Raise(Min(op.target, Cap(s.params)), op.trigger)] + s.progs[t][1..]
  {
  }

  /** While the lock is held nobody changes the outcome, and it is the posture when the lock is free again. */
  lemma OutcomeKept(s: Sys, step: Step)
    requires Inv(s) && Enabled(s, step) && s.lock.Held?
    ensures Outcome(Next(s, step)) == Outcome(s)
    ensures Next(s, step).lock.Held? ==> Next(s, step).lock.tid == s.lock.tid
  {
    match step {
      case Run(t, env) =>
        if !HoldsLock(s, t) {
          EffectUnlocked(s, t, s.progs[t][0], env);
          hide Effect, Push, Sound;
        }
      case _ =>
    }
  }

  /** While the lock is free the posture stays. */
  lemma FreeKeepsPosture(s: Sys, step: Step)
    requires Inv(s) && Enabled(s, step) && s.lock.Free?
    ensures Next(s, step).table.posture == s.table.posture
  {
    match step {
      case Run(t, env) =>
        EffectTable(s, t, s.progs[t][0], env);
        hide Effect, Push, Sound;
      case _ =>
    }
  }

  /** A thread that is not run, holds no lock and has something to do keeps it. */
  lemma ProgStays(s: Sys, step: Step, t: nat)
    requires Inv(s) && Enabled(s, step) && !(step.Run? && step.t == t)
    requires t < |s.progs| && s.progs[t] != [] && !HoldsLock(s, t)
    ensures var s' := Next(s, step); t < |s'.progs| && s'.progs[t] == s.progs[t] && !HoldsLock(s', t)
  {
    match step {
      case Run(o, env) =>
        if !HoldsLock(s, o) {
          var op := s.progs[o][0];
          if NeedsLock(op) {
            EffectLocks(s, o, op, env);
          } else {
            EffectUnlocked(s, o, op, env);
          }
          hide Effect, Push, Sound;
        }
      case _ =>
    }
  }

  lemma EffectLocks(s: Sys, t: nat, op: Op, env: Env)
    requires OpShape(s, op) && s.lock.Free?
    ensures var l := Effect(s, t, op, env).lock; l.Held? ==> l.tid == t
  {
  }

  ghost predicate Idles(steps: seq<Step>, t: nat, i: nat, j: nat) {
    forall m :: i <= m < j && m < |steps| ==> !(steps[m].Run? && steps[m].t == t)
  }

  lemma {:induction false} ProgWaits(ss: seq<Sys>, steps: seq<Step>, t: nat, i: nat, j: nat)
    requires Behavior(ss, steps) && i <= j < |ss| && Idles(steps, t, i, j)
    requires t < |ss[i].progs| && ss[i].progs[t] != [] && !HoldsLock(ss[i], t)
    ensures t < |ss[j].progs| && ss[j].progs[t] == ss[i].progs[t] && !HoldsLock(ss[j], t)
    decreases j
  {
    hide Inv, Init, Enabled, Next;
    if i < j {
      ProgWaits(ss, steps, t, i, j - 1);
      Always(ss, steps, j - 1);
      assert Moves(ss[j - 1], steps[j - 1], ss[j]);
      ProgStays(ss[j - 1], steps[j - 1], t);
    }
  }

  lemma {:induction false} OutcomeLasts(ss: seq<Sys>, steps: seq<Step>, i: nat, j: nat)
    requires Behavior(ss, steps) && i <= j < |ss| && forall m :: i <= m < j ==> ss[m].lock.Held?
    ensures Outcome(ss[j]) == Outcome(ss[i])
    decreases j
  {
    hide Inv, Init, Enabled, Next, Outcome;
    if i < j {
      OutcomeLasts(ss, steps, i, j - 1);
      Always(ss, steps, j - 1);
      assert Moves(ss[j - 1], steps[j - 1], ss[j]);
      OutcomeKept(ss[j - 1], steps[j - 1]);
    }
  }

  /** Thread t is about to do the operation. */
  ghost predicate AboutTo(s: Sys, t: nat, op: Op) {
    t < |s.progs| && !HoldsLock(s, t) && s.progs[t] != [] && s.progs[t][0] == op
  }

  /**
   Over every run: thread t reads the cap at step h, takes the lock at its next step i, and when the lock is free
   again at j the posture is the higher of the one there was and the capped target, whatever others did meanwhile.
   */
  lemma RaiseOverRun(ss: seq<Sys>, steps: seq<Step>, t: nat, wanted: nat, trigger: nat, h: nat, i: nat, j: nat, env: Env, env': Env)
    requires Behavior(ss, steps) && h < i < j < |ss| && steps[h] == Run(t, env) && steps[i] == Run(t, env')
    requires AboutTo(ss[h], t, RaiseUpTo(wanted, trigger)) && Idles(steps, t, h + 1, i) && ss[i].pos.ready
    requires ss[j].lock.Free? && forall m :: i < m < j ==> ss[m].lock.Held?
    ensures ss[j].table.posture == Max(ss[i].table.posture, Min(wanted, Cap(ss[h].params)))
  {
    var raise := Raise(Min(wanted, Cap(ss[h].params)), trigger);
    assert Moves(ss[h], steps[h], ss[h + 1]) && Moves(ss[i], steps[i], ss[i + 1]);
    Always(ss, steps, h);
    Always(ss, steps, i);
    CappedOnce(ss[h], t, env);
    assert ss[h + 1].progs[t][0] == raise && !HoldsLock(ss[h + 1], t);
    ProgWaits(ss, steps, t, h + 1, i);
    RaiseYields(ss[i], t, env');
    hide Inv, Init, Next, Enabled, Behavior;
    OutcomeLasts(ss, steps, i + 1, j);
  }

  // ----- Untrusted states -----

  lemma UntrustedStep(s: Sys, step: Step)
    requires Inv(s) && Enabled(s, step) && s.pos.untrusted && s.table.posture >= HIGH
    ensures Next(s, step).pos.untrusted && Next(s, step).table.posture >= s.table.posture
  {
    match step {
      case Run(t, env) =>
        if !HoldsLock(s, t) {
          EffectTable(s, t, s.progs[t][0], env);
          EffectTrust(s, t, s.progs[t][0], env);
          hide Effect, Push, Sound;
        }
      case _ =>
    }
  }

  lemma EffectTrust(s: Sys, t: nat, op: Op, env: Env)
    requires OpShape(s, op) && s.pos.untrusted
    ensures Effect(s, t, op, env).pos.untrusted
  {
  }

  /** Once the policy state is untrusted and the posture at least HIGH, the posture never decreases. */
  lemma {:induction false} UntrustedNeverDown(ss: seq<Sys>, steps: seq<Step>, i: nat, j: nat)
    requires Behavior(ss, steps) && i <= j < |ss| && ss[i].pos.untrusted && ss[i].table.posture >= HIGH
    ensures ss[j].pos.untrusted && ss[j].table.posture >= ss[i].table.posture
    decreases j
  {
    hide Inv, Init, Enabled, Next;
    if i < j {
      UntrustedNeverDown(ss, steps, i, j - 1);
      Always(ss, steps, j - 1);
      assert Moves(ss[j - 1], steps[j - 1], ss[j]);
      UntrustedStep(ss[j - 1], steps[j - 1]);
    }
  }

  // ----- Lowering -----

  lemma {:induction false} ExplainedAt(h: seq<Event>, j: nat)
    requires Explained(h) && j < |h|
    ensures LinkOk(h[..j], h[j])
  {
    if j < |h| - 1 {
      ExplainedAt(h[..|h| - 1], j);
      assert h[..|h| - 1][..j] == h[..j];
    }
  }

  /** The only automatic lowering is ELEVATED to NORMAL, a full quiet period after everything that counted. */
  lemma OnlyQuietLowers(ss: seq<Sys>, steps: seq<Step>, i: nat, j: nat)
    requires Behavior(ss, steps) && i < |ss| && j < |ss[i].hist|
    requires ss[i].hist[j].Changed? && ss[i].hist[j].target < ss[i].hist[j].was && !ss[i].hist[j].why.Operator?
    ensures var e := ss[i].hist[j];
            && e.was == ELEVATED && e.target == NORMAL && e.why.Quiet? && e.why.secs > 0
            && forall k :: 0 <= k < j && ss[i].hist[k].Counted? ==> ss[i].hist[k].at + e.why.secs * SEC <= e.why.at
  {
    hide Init, Enabled, Next, Shape, TableOk, SectionOk, EntriesOk, GateOk;
    Always(ss, steps, i);
    var h := ss[i].hist;
    ExplainedAt(h, j);
    hide Explained, PostureOf;
    forall k | 0 <= k < j && h[k].Counted?
      ensures h[k].at + h[j].why.secs * SEC <= h[j].why.at
    {
      assert h[..j][k] in h[..j];
    }
  }

  // ----- Every call returns -----

  /** An upper bound on the steps an operation still takes, with at most `n` CPUs on a core. */
  function Weight(op: Op, n: nat): nat {
    match op
    case Report(a) => if Wanted(a.code, a.level) == NORMAL then 1 else n + 10
    case RaiseUpTo(_, _) => 7
    case Raise(_, _) => 6
    case AfterUp(_) => 2
    case Operate(_) => 8
    case DecayDue => 6
    case Decay(_) => 5
    case Sample(_) => 2
    case Coming(_, _, _) => n + 14
    case Decide(_, _) => n + 13
    case Block(_, _) => n + 12
    case _ => 1
  }

  function Weigh(n: nat): Op -> nat { op => Weight(op, n) }

  function SectionWork(s: Sys, t: nat): nat {
    if !HoldsLock(s, t) then 0
    else match s.lock.sec
         case Apply(_, _, _) => 3
         case Enter(_, _) => 2
         case Release(_) => 1
  }

  function Work(s: Sys, t: nat, n: nat): nat
    requires t < |s.progs|
  {
    Sum(s.progs[t], Weigh(n)) + SectionWork(s, t)
  }

  lemma {:induction false} SiblingsWork(cpu: nat, sibs: seq<nat>, online: set<nat>, n: nat)
    ensures Sum(Siblings(cpu, sibs, online), Weigh(n)) <= |sibs|
  {
    if sibs != [] {
      SiblingsWork(cpu, sibs[1..], online, n);
      var first := if sibs[0] != cpu && sibs[0] in online then [Escalate(sibs[0])] else [];
      SumOne(Escalate(sibs[0]), Weigh(n));
      SumConcat(first, Siblings(cpu, sibs[1..], online), Weigh(n));
    }
  }

  lemma DispatchWork(a: Alert, topo: Topology, n: nat)
    requires forall cpu :: |topo.siblings(cpu)| <= n
    ensures Sum(Dispatched(a, topo), Weigh(n)) < Weight(Report(a), n)
  {
    var raise := if Wanted(a.code, a.level) > NORMAL then [RaiseUpTo(Wanted(a.code, a.level), a.code)] else [];
    SumConcat(Escalations(a, topo), raise, Weigh(n));
    SumOne(RaiseUpTo(Wanted(a.code, a.level), a.code), Weigh(n));
    var cpu := a.p2 / U32;
    if Escalations(a, topo) != [] {
      SiblingsWork(cpu, topo.siblings(cpu), topo.online, n);
      SumOne(Escalate(cpu), Weigh(n));
      SumConcat([Escalate(cpu)], Siblings(cpu, topo.siblings(cpu), topo.online), Weigh(n));
      assert Sum([Escalate(cpu)], Weigh(n)) == 1;
    }
  }

  lemma PushWork(s: Sys, t: nat, op: Op, env: Env, n: nat)
    requires OpShape(s, op) && !HoldsLock(s, t) && forall cpu :: |env.topo.siblings(cpu)| <= n
    ensures Sum(Push(s, op, env), Weigh(n)) + SectionWork(Effect(s, t, op, env), t) < Weight(op, n)
  {
    if op.Report? {
      DispatchWork(op.a, env.topo, n);
    } else {
      var push := Push(s, op, env);
      assert |push| <= 2;
      if |push| == 1 {
        SumOne(push[0], Weigh(n));
        assert push == [push[0]];
      } else if |push| == 2 {
        SumTwo(push[0], push[1], Weigh(n));
        assert push == [push[0], push[1]];
      }
    }
  }

  /** Each step of a thread leaves it less to do, so reporting an alert always returns. */
  lemma CallsReturn(s: Sys, t: nat, env: Env, n: nat)
    requires Inv(s) && Enabled(s, Run(t, env)) && forall cpu :: |env.topo.siblings(cpu)| <= n
    ensures Work(Next(s, Run(t, env)), t, n) < Work(s, t, n)
  {
    if HoldsLock(s, t) {
      hide Sum, Sound;
    } else {
      var op := s.progs[t][0];
      PushWork(s, t, op, env, n);
      SumConcat(Push(s, op, env), s.progs[t][1..], Weigh(n));
      hide Effect, Push, Sound;
    }
  }

  /** The steps of others leave a thread's work as it is. */
  lemma OthersKeepWork(s: Sys, step: Step, t: nat, n: nat)
    requires Inv(s) && Enabled(s, step) && t < |s.progs| && !((step.Run? || step.Spawn?) && step.t == t)
    ensures t < |Next(s, step).progs| && Work(Next(s, step), t, n) == Work(s, t, n)
  {
    hide Sum;
    match step {
      case Run(o, env) =>
        if HoldsLock(s, o) {
          hide Sound;
        } else {
          var op := s.progs[o][0];
          if NeedsLock(op) {
            EffectLocks(s, o, op, env);
          } else {
            EffectUnlocked(s, o, op, env);
          }
          hide Effect, Push, Sound;
        }
      case _ =>
    }
  }

  /** How many of the steps from i to j are thread t's own. */
  function Own(steps: seq<Step>, t: nat, i: nat, j: nat): nat
    requires i <= j <= |steps|
    decreases j
  {
    if i == j then 0 else Own(steps, t, i, j - 1) + if IsOwn(steps[j - 1], t) then 1 else 0
  }

  predicate IsOwn(step: Step, t: nat) { step.Run? && step.t == t }

  predicate Calls(step: Step, t: nat) { step.Spawn? && step.t == t }

  ghost predicate SmallCores(step: Step, n: nat) {
    step.Run? ==> forall cpu :: |step.env.topo.siblings(cpu)| <= n
  }

  lemma SpawnedWork(s: Sys, t: nat, op: Op, n: nat)
    requires Shape(s) && Enabled(s, Spawn(t, op))
    ensures t < |Next(s, Spawn(t, op)).progs| && Work(Next(s, Spawn(t, op)), t, n) == Weight(op, n)
  {
    SumOne(op, Weigh(n));
    hide Sum;
  }

  lemma WorkStep(s: Sys, step: Step, t: nat, n: nat)
    requires Inv(s) && Enabled(s, step) && t < |s.progs| && !Calls(step, t) && SmallCores(step, n)
    ensures t < |Next(s, step).progs| && Work(Next(s, step), t, n) + (if IsOwn(step, t) then 1 else 0) <= Work(s, t, n)
  {
    SameThreads(s, step);
    hide Next, Enabled, Inv, Work;
    if IsOwn(step, t) {
      CallsReturn(s, t, step.env, n);
    } else {
      OthersKeepWork(s, step, t, n);
    }
  }

  /** Over every run: a call takes at most its weight in steps of its own, however many others take in between. */
  lemma {:induction false} CallBounded(ss: seq<Sys>, steps: seq<Step>, t: nat, op: Op, i: nat, j: nat, n: nat)
    requires Behavior(ss, steps) && i < j < |ss| && steps[i] == Spawn(t, op)
    requires forall m :: i < m < j ==> !Calls(steps[m], t) && SmallCores(steps[m], n)
    ensures t < |ss[j].progs| && Own(steps, t, i + 1, j) + Work(ss[j], t, n) <= Weight(op, n)
    decreases j
  {
    hide Next, Enabled, Init, Inv, Work, Weight, Shape, SmallCores;
    assert Moves(ss[j - 1], steps[j - 1], ss[j]);
    if j == i + 1 {
      SpawnedWork(ss[i], t, op, n);
    } else {
      CallBounded(ss, steps, t, op, i, j - 1, n);
      Always(ss, steps, j - 1);
      WorkStep(ss[j - 1], steps[j - 1], t, n);
    }
  }

  lemma SameThreads(s: Sys, step: Step)
    requires Inv(s) && Enabled(s, step)
    ensures |Next(s, step).progs| == |s.progs|
  {
    SameSize(s, step);
  }

  /** While any thread has something to do, some thread can do it. */
  lemma NoDeadlock(s: Sys, t: nat, env: Env)
    requires Inv(s) && GoodEnv(s, env) && t < |s.progs| && s.progs[t] != []
    ensures Enabled(s, Run(if s.lock.Held? then s.lock.tid else t, env))
  {
  }
}

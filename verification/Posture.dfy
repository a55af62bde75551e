/** The posture ladder and the alert router as the module runs them, one call at a time. */
module Posture {
  import opened Guard
  import opened Response
  import opened ResponseSafety
  import opened ResponseHistory
  import opened ResponseRuns
  import opened ResponseRoute

  datatype Rc = Ok | Invalid | NoDevice | Unclean

  /** The table after an alert escalated CPUs. */
  function EscalatedBy(t: Table, ops: seq<Op>): Table
    decreases |ops|
  {
    if ops == [] then t
    else EscalatedBy(if ops[0].Escalate? then Escalated(t, ops[0].cpu) else t, ops[1..])
  }

  lemma {:induction false} EscalationKeepsSound(t: Table, ops: seq<Op>)
    requires Sound(t)
    ensures Sound(EscalatedBy(t, ops)) && EscalatedBy(t, ops).posture == t.posture
    ensures |EscalatedBy(t, ops).cpus| == |t.cpus|
    decreases |ops|
  {
    if ops != [] {
      if ops[0].Escalate? {
        SectionsKeepSound(t, ops[0].cpu, Probe(0, 0, 0, 0, 0, 0), NORMAL);
        EscalationKeepsSound(Escalated(t, ops[0].cpu), ops[1..]);
      } else {
        EscalationKeepsSound(t, ops[1..]);
      }
    }
  }

  lemma EscalatedOne(t: Table, cpu: nat)
    ensures EscalatedBy(t, [Escalate(cpu)]) == Escalated(t, cpu)
  {
    assert [Escalate(cpu)][1..] == [];
  }

  lemma EscalatedNone(t: Table)
    ensures EscalatedBy(t, []) == t
  {
  }

  lemma {:induction false} EscalatedConcat(t: Table, a: seq<Op>, b: seq<Op>)
    ensures EscalatedBy(t, a + b) == EscalatedBy(EscalatedBy(t, a), b)
    decreases |a|
  {
    if a == [] {
      assert a + b == b;
    } else {
      assert (a + b)[1..] == a[1..] + b;
      EscalatedConcat(if a[0].Escalate? then Escalated(t, a[0].cpu) else t, a[1..], b);
    }
  }

  /** The CPUs named by the escalations go to full-spectrum, the others stay. */
  lemma {:induction false} EscalatedEach(t: Table, ops: seq<Op>, c: nat)
    requires c < |t.cpus|
    ensures |EscalatedBy(t, ops).cpus| == |t.cpus|
    ensures EscalatedBy(t, ops).cpus[c] == if Escalate(c) in ops then t.cpus[c].(strategy := STRAT_FULL) else t.cpus[c]
    decreases |ops|
  {
    if ops != [] {
      EscalatedEach(if ops[0].Escalate? then Escalated(t, ops[0].cpu) else t, ops[1..], c);
      assert ops == [ops[0]] + ops[1..];
    }
  }

  class Ladder<D(==)> {
    const guard: State<D>
    var ready: bool
    var untrusted: bool
    var triggerMono: nat
    var trigger: nat
    var entered: seq<nat>
    var timer: bool
    var failFlag: bool
    var sent: seq<Alert>
    var params: Params

    ghost predicate Valid()
      reads this, guard, guard.cpus
    {
      |entered| == POSTURES && Sound(guard.Now())
    }

    constructor (guard: State<D>, params: Params)
      requires Sound(guard.Now())
      ensures Valid() && this.guard == guard && this.params == params && sent == []
      ensures ready && !untrusted && triggerMono == 0 && entered == [1, 0, 0, 0]
    {
      this.guard, this.params := guard, params;
      ready, untrusted, triggerMono, trigger := true, false, 0, 0;
      entered, timer, failFlag, sent := [1, 0, 0, 0], false, false, [];
    }

    /** Lock held: (re)start the quiet-period timer. */
    method ArmDecay()
      modifies this`timer
      ensures Now() == Restarted(old(Now()))
    {
      var secs := Min(params.decayS, MAX_DECAY_S);
      if ready && secs > 0 && guard.posture == ELEVATED {
        timer := true;
      }
    }

    /** Lock held: apply a posture and count it. */
    method ApplyLocked(target: nat, hashed: bool)
      requires Valid() && target < POSTURES
      modifies this`entered, this`failFlag, guard, guard.cpus
      ensures Valid() && Now() == Applied(old(Now()), target)
      ensures hashed ==> guard.Matches()
    {
      SectionsKeepSound(guard.Now(), 0, Probe(0, 0, 0, 0, 0, 0), target);
      guard.SetPosture(target, hashed);
      entered := entered[target := entered[target] + 1];
      if target != FAILSAFE {
        failFlag := false;
      }
    }

    /** The plain values of the fields. */
    ghost function Now(): View
      reads this, guard, guard.cpus
    {
      View(guard.Now(), ready, untrusted, triggerMono, trigger, entered, timer, failFlag, sent, params)
    }

    /** After a successful hash in every section the digest still matches. */
    ghost predicate Sealed(hashed: bool, before: bool)
      reads this, guard, guard.cpus
    {
      hashed && before ==> guard.Matches()
    }

    /** Delivers the alert, then lets it act. */
    method Report(a: Alert, topo: Topology, now: nat, hashed: bool)
      requires Valid()
      modifies this, guard, guard.cpus
      ensures Valid() && Now() == Reported(old(Now()), a, topo, now)
      ensures Answers(old(Now()), a, topo, now, Now())
      ensures Now().sent == old(sent) + [a] + if old(guard.posture) < guard.posture == 3 then [Alert(0x31, 2, 0, 0)] else []
      ensures Sealed(hashed, old(guard.Matches()))
      decreases if Wanted(a.code, a.level) == NORMAL then 0 else 1, 3
    {
      ghost var v := Now();
      sent := sent + [a];
      Dispatch(a, topo, now, hashed);
      ReportAnswers(v, a, topo, now);
    }

    /** The branch table of the event router. */
    method Dispatch(a: Alert, topo: Topology, now: nat, hashed: bool)
      requires Valid()
      modifies this, guard, guard.cpus
      ensures Valid() && Now() == Acted(old(Now()), a, topo, now)
      ensures Answers(old(Now()), a, topo, now, Now())
      ensures Sealed(hashed, old(guard.Matches()))
      decreases if Wanted(a.code, a.level) == NORMAL then 0 else 1, 2
    {
      hide Answers, Raised, EscalatedBy, Sound, Siblings;
      EscalatedNone(guard.Now());
      if a.code == PMU_L1D || a.code == PMU_L2 {
        if a.level >= CRITICAL {
          var cpu := a.p2 / U32;
          if cpu in topo.online {
            EscalateCore(cpu, topo, hashed);
          }
          Raise(ELEVATED, a.code, now, hashed);
        }
      } else if a.code in {DMA, PCI, KBD_FILTER, KBD_NEUTRALIZED, BME_DISABLED} {
        Raise(ELEVATED, a.code, now, hashed);
      } else if a.code == MODULE_LOADED {
        if a.level >= WATCH {
          Raise(ELEVATED, a.code, now, hashed);
        }
      } else if a.code == VULN_DRIVER {
        Raise(if a.level >= CRITICAL then HIGH else ELEVATED, a.code, now, hashed);
      } else if a.code == DRIVER_BLOCKED {
        if a.level >= CRITICAL {
          Raise(ELEVATED, a.code, now, hashed);
        }
      } else if a.code == IDT_HOOK || a.code == CTRL_REG {
        if a.level >= CRITICAL {
          Raise(HIGH, a.code, now, hashed);
        }
      } else if a.code == TEXT_PATCH || a.code == DISPATCH_HOOK {
        if a.level >= CRITICAL {
          Raise(FAILSAFE, a.code, now, hashed);
        }
      } else if a.code == STATE_CORRUPT {
        Raise(FAILSAFE, a.code, now, hashed);
      }
      ActedAnswers(old(Now()), a, topo, now);
    }

    /** A CPU and the online CPUs that share its core go to full-spectrum. */
    method EscalateCore(cpu: nat, topo: Topology, hashed: bool)
      requires Valid()
      modifies guard, guard.cpus
      ensures Valid()
      ensures guard.Now() == EscalatedBy(old(guard.Now()), [Escalate(cpu)] + Siblings(cpu, topo.siblings(cpu), topo.online))
      ensures guard.posture == old(guard.posture)
      ensures forall c :: 0 <= c < guard.cpus.Length ==>
                guard.cpus[c] == if c == cpu || (c in topo.siblings(cpu) && c in topo.online)
                                 then old(guard.cpus[c]).(strategy := 4) else old(guard.cpus[c])
      ensures Sealed(hashed, old(guard.Matches()))
    {
      hide Sound, EscalatedBy;
      ghost var t0, all := guard.Now(), Siblings(cpu, topo.siblings(cpu), topo.online);
      guard.EscalateCpu(cpu, hashed);
      EscalatedOne(t0, cpu);
      EscalatedConcat(t0, [Escalate(cpu)], all);
      EscalationKeepsSound(t0, [Escalate(cpu)] + all);
      FlushSiblings(cpu, topo, hashed);
      CoreEach(t0, cpu, topo);
      assert forall c :: 0 <= c < guard.cpus.Length ==> guard.cpus[c] == guard.Now().cpus[c];
    }

    method FlushSiblings(cpu: nat, topo: Topology, hashed: bool)
      modifies guard, guard.cpus
      ensures guard.Now() == EscalatedBy(old(guard.Now()), Siblings(cpu, topo.siblings(cpu), topo.online))
      ensures Sealed(hashed, old(guard.Matches()))
    {
      hide EscalatedBy;
      ghost var t, all := guard.Now(), Siblings(cpu, topo.siblings(cpu), topo.online);
      var sibs := topo.siblings(cpu);
      while sibs != []
        invariant EscalatedBy(t, all) == EscalatedBy(guard.Now(), Siblings(cpu, sibs, topo.online))
        invariant Sealed(hashed, old(guard.Matches()))
        decreases |sibs|
      {
        if sibs[0] != cpu && sibs[0] in topo.online {
          EscalatedOne(guard.Now(), sibs[0]);
          EscalatedConcat(guard.Now(), [Escalate(sibs[0])], Siblings(cpu, sibs[1..], topo.online));
          guard.EscalateCpu(sibs[0], hashed);
        } else {
          assert [] + Siblings(cpu, sibs[1..], topo.online) == Siblings(cpu, sibs[1..], topo.online);
        }
        sibs := sibs[1..];
      }
      EscalatedNone(guard.Now());
    }

    /** Everything that has to happen after the posture went up, the lock no longer held. */
    method AfterUp(target: nat, topo: Topology, now: nat, hashed: bool)
      requires Valid()
      modifies this, guard, guard.cpus
      ensures Valid() && Now() == WentUp(old(Now()), target)
      ensures Sealed(hashed, old(guard.Matches()))
      decreases 1, 0
    {
      if target == FAILSAFE {
        failFlag := true;
        JustSent(Now(), FailsafeAlert(), topo, now);
        Report(FailsafeAlert(), topo, now, hashed);
      }
    }

    method Raise(wanted: nat, cause: nat, now: nat, hashed: bool)
      requires Valid()
      modifies this, guard, guard.cpus
      ensures Valid() && Now() == Raised(old(Now()), wanted, cause, now)
      ensures var capped := Min(wanted, Min(params.maxPosture, 3));
              guard.posture == if ready then Max(old(guard.posture), capped) else old(guard.posture)
      ensures Sealed(hashed, old(guard.Matches()))
      decreases 1, 1
    {
      var up := false;
      var target := Min(wanted, Cap(params));
      if !ready {
        return;
      }
      hide Sound, WithPosture, Raised, Moved, Restarted, WentUp, Applied;
      ghost var v := Now();
      if cause == STATE_CORRUPT {
        untrusted := true;
      }
      var was := guard.posture;
      if target >= ELEVATED {
        triggerMono, trigger := now, cause;
      }
      assert Now() == Noted(v, target, cause, now);
      if target > was {
        ApplyLocked(target, hashed);
        up := true;
      }
      ArmDecay();
      if up {
        AfterUp(target, Topology({}, c => []), now, hashed);
        RaisedUp(v, wanted, cause, now);
      } else {
        RaisedHeld(v, wanted, cause, now);
      }
    }

    /** The operator's change: under the lock, then what follows a change upwards. */
    method Change(target: nat, now: nat, hashed: bool)
      requires Valid() && target < POSTURES && target != guard.posture
      modifies this, guard, guard.cpus
      ensures Valid() && Now() == Restarted(Moved(old(Now()).(triggerMono := now), target))
      ensures Sealed(hashed, old(guard.Matches()))
    {
      ghost var v := Now();
      ChangedIs(v, target, now);
      hide WithPosture, Moved, Restarted, WentUp, Sound;
      var was := guard.posture;
      ApplyLocked(target, hashed);
      triggerMono := now;
      ArmDecay();
      if target > was {
        AfterUp(target, Topology({}, c => []), now, hashed);
      }
    }

    /** The operator's request. */
    method Set(target: nat, now: nat, hashed: bool) returns (rc: Rc)
      requires Valid()
      modifies this, guard, guard.cpus
      ensures Valid() && (rc, Now()) == Operated(old(Now()), target, now)
      ensures rc.Invalid? <==> target >= 4
      ensures rc.NoDevice? <==> target < 4 && !old(ready)
      ensures rc.Unclean? <==> target < 4 && old(ready) && target < old(guard.posture) && old(guard.posture) >= 2 && old(untrusted)
      ensures !rc.Ok? || target == old(guard.posture) ==> Now() == old(Now())
      ensures rc.Ok? ==> guard.posture == target
      ensures rc.Ok? && target != old(guard.posture) ==>
                && triggerMono == now && trigger == old(trigger) && entered[target] == old(entered[target]) + 1
                && sent == old(sent) + (if target == 3 then [Alert(0x31, 2, 0, 0)] else []) +
                   [Alert(0x32, 1, old(guard.posture) * 0x1_0000_0000 + target, 3 * 0x1_0000_0000 + old(trigger))]
      ensures Sealed(hashed, old(guard.Matches()))
    {
      if target < POSTURES && target != guard.posture {
        OperatedMeans(Now(), target, now);
      }
      hide WithPosture, Moved, Restarted, Reported, Sound;
      if target >= POSTURES {
        return Invalid;
      }
      if !ready {
        return NoDevice;
      }
      var was := guard.posture;
      if target == was {
        return Ok;
      }
      if target < was && was >= HIGH && untrusted {
        return Unclean;
      }
      var cause := trigger;
      Change(target, now, hashed);
      JustSent(Now(), Announcement(was, target, WHY_OPERATOR, cause), Topology({}, c => []), now);
      Report(Announcement(was, target, WHY_OPERATOR, cause), Topology({}, c => []), now, hashed);
      return Ok;
    }

    /** The quiet-period work item; its timer has fired. */
    method DecayFn(now: nat, hashed: bool)
      requires Valid()
      modifies this, guard, guard.cpus
      ensures Valid() && Now() == Decayed(old(Now()), now)
      ensures var secs := if params.decayS < 1_000_000 then params.decayS else 1_000_000;
              var looks := ready && secs > 0 && old(guard.posture) == 1;
              var due := looks && now >= (old(triggerMono) + secs * 1_000_000_000) % 0x1_0000_0000_0000_0000;
              && guard.posture == (if due then 0 else old(guard.posture))
              && timer == (looks && !due)
              && sent == old(sent) + if due then [Alert(0x32, 0, 0x1_0000_0000, 2 * 0x1_0000_0000 + old(trigger))] else []
      ensures Sealed(hashed, old(guard.Matches()))
    {
      timer := false;
      var secs := Min(params.decayS, MAX_DECAY_S);
      if ready && secs > 0 && guard.posture == ELEVATED {
        var due := (triggerMono + secs * SEC) % U64;
        if now >= due {
          var cause := trigger;
          ApplyLocked(NORMAL, hashed);
          JustSent(Now(), Announcement(ELEVATED, NORMAL, WHY_DECAY, cause), Topology({}, c => []), now);
          Report(Announcement(ELEVATED, NORMAL, WHY_DECAY, cause), Topology({}, c => []), now, hashed);
        } else {
          timer := true;
        }
      }
    }
  }

  // ----- What the calls do, in closed form -----

  datatype View = View(table: Table, ready: bool, untrusted: bool, triggerMono: nat, trigger: nat, entered: seq<nat>,
                       timer: bool, failFlag: bool, sent: seq<Alert>, params: Params)

  ghost predicate Good(v: View) {
    |v.entered| == POSTURES && Sound(v.table)
  }

  /** The posture is `p` from now on; nothing happens if it was before. */
  function Moved(v: View, p: nat): View
    requires Good(v) && p < POSTURES
  {
    if p == v.table.posture then v
    else
      v.(table := WithPosture(v.table, p), entered := v.entered[p := v.entered[p] + 1],
         failFlag := p == FAILSAFE, sent := v.sent + if p == FAILSAFE then [FailsafeAlert()] else [])
  }

  function Restarted(v: View): View {
    v.(timer := v.timer || (v.ready && v.params.decayS > 0 && v.table.posture == ELEVATED))
  }

  /** The trigger is recorded, whether or not it raises anything. */
  function Noted(v: View, target: nat, cause: nat, now: nat): View {
    var counted := target >= ELEVATED;
    v.(untrusted := v.untrusted || cause == STATE_CORRUPT,
       triggerMono := if counted then now else v.triggerMono, trigger := if counted then cause else v.trigger)
  }

  /** An automatic raise: the higher of the old posture and the capped target. */
  function Raised(v: View, wanted: nat, cause: nat, now: nat): View
    requires Good(v)
  {
    var target := Min(wanted, Cap(v.params));
    if !v.ready then v
    else
      Restarted(Moved(Noted(v, target, cause, now), Max(v.table.posture, target)))
  }

  function WentUp(v: View, target: nat): View {
    if target == FAILSAFE then v.(failFlag := true, sent := v.sent + [FailsafeAlert()]) else v
  }

  function Acted(v: View, a: Alert, topo: Topology, now: nat): View
    requires Good(v)
  {
    EscalationKeepsSound(v.table, Escalations(a, topo));
    var v1 := v.(table := EscalatedBy(v.table, Escalations(a, topo)));
    if Wanted(a.code, a.level) > NORMAL then Raised(v1, Wanted(a.code, a.level), a.code, now) else v1
  }

  /** CPU c after the report of `a`. */
  predicate CpuAnswers(v: View, a: Alert, topo: Topology, v': View, c: nat)
    requires c < |v.table.cpus| == |v'.table.cpus|
  {
    v'.table.cpus[c] == if v'.table.posture >= 2 || OnCore(a, topo, c) then v.table.cpus[c].(strategy := 4) else v.table.cpus[c]
  }

  /**
   What becomes of an alert: the posture it asks for as far as the cap allows, never a lower one; full-spectrum on its
   core, or everywhere from HIGH on; distrust after corrupt state; and the trigger noted.
   */
  ghost predicate Answers(v: View, a: Alert, topo: Topology, now: nat, v': View) {
    var capped := Min(PostureFor(a), Min(v.params.maxPosture, 3));
    && v'.table.posture == (if v.ready then Max(v.table.posture, capped) else v.table.posture)
    && |v'.table.cpus| == |v.table.cpus| && (forall c :: 0 <= c < |v.table.cpus| ==> CpuAnswers(v, a, topo, v', c))
    && v'.untrusted == (v.untrusted || (v.ready && a.code == 0x30))
    && v'.triggerMono == (if v.ready && capped > 0 then now else v.triggerMono)
    && v'.trigger == (if v.ready && capped > 0 then a.code else v.trigger)
    && v'.ready == v.ready && v'.params == v.params
    && v'.entered == (if v'.table.posture == v.table.posture || v'.table.posture >= |v.entered| then v.entered
                      else v.entered[v'.table.posture := v.entered[v'.table.posture] + 1])
  }

  lemma CoreEach(t: Table, cpu: nat, topo: Topology)
    ensures var t' := EscalatedBy(t, [Escalate(cpu)] + Siblings(cpu, topo.siblings(cpu), topo.online));
            && |t'.cpus| == |t.cpus|
            && forall c :: 0 <= c < |t.cpus| ==>
                 t'.cpus[c] == if c == cpu || (c in topo.siblings(cpu) && c in topo.online)
                               then t.cpus[c].(strategy := 4) else t.cpus[c]
  {
    var ops := [Escalate(cpu)] + Siblings(cpu, topo.siblings(cpu), topo.online);
    SiblingsAre(cpu, topo.siblings(cpu), topo.online);
    EscalatedLength(t, ops);
    forall c | 0 <= c < |t.cpus|
      ensures EscalatedBy(t, ops).cpus[c] == if Escalate(c) in ops then t.cpus[c].(strategy := STRAT_FULL) else t.cpus[c]
    {
      EscalatedEach(t, ops, c);
    }
  }

  lemma {:induction false} EscalatedLength(t: Table, ops: seq<Op>)
    ensures |EscalatedBy(t, ops).cpus| == |t.cpus| && EscalatedBy(t, ops).posture == t.posture
    decreases |ops|
  {
    if ops != [] {
      EscalatedLength(if ops[0].Escalate? then Escalated(t, ops[0].cpu) else t, ops[1..]);
    }
  }

  lemma ActedAnswers(v: View, a: Alert, topo: Topology, now: nat)
    requires Good(v)
    ensures Answers(v, a, topo, now, Acted(v, a, topo, now))
  {
    var ops := Escalations(a, topo);
    EscalationsAre(a, topo);
    EscalationKeepsSound(v.table, ops);
    WantedIs(a);
    var v1 := v.(table := EscalatedBy(v.table, ops));
    forall c | 0 <= c < |v.table.cpus|
      ensures v1.table.cpus[c] == if OnCore(a, topo, c) then v.table.cpus[c].(strategy := 4) else v.table.cpus[c]
    {
      EscalatedEach(v.table, ops, c);
    }
    hide EscalatedBy, Escalations, OnCore, PostureFor, Wanted;
    if Wanted(a.code, a.level) > NORMAL {
      RaisedAnswers(v1, Wanted(a.code, a.level), a.code, now);
    }
  }

  /** A raise, field by field. */
  lemma RaisedAnswers(v: View, wanted: nat, cause: nat, now: nat)
    requires Good(v) && wanted < POSTURES
    ensures var v', capped := Raised(v, wanted, cause, now), Min(wanted, Min(v.params.maxPosture, 3));
            && v'.table.posture == (if v.ready then Max(v.table.posture, capped) else v.table.posture)
            && |v'.table.cpus| == |v.table.cpus|
            && (forall c :: 0 <= c < |v.table.cpus| ==>
                  v'.table.cpus[c] == if v'.table.posture >= 2 then v.table.cpus[c].(strategy := 4) else v.table.cpus[c])
            && v'.untrusted == (v.untrusted || (v.ready && cause == STATE_CORRUPT))
            && v'.triggerMono == (if v.ready && capped > 0 then now else v.triggerMono)
            && v'.trigger == (if v.ready && capped > 0 then cause else v.trigger)
            && v'.ready == v.ready && v'.params == v.params
            && v'.entered == (if v'.table.posture == v.table.posture then v.entered
                              else v.entered[v'.table.posture := v.entered[v'.table.posture] + 1])
            && v'.sent == v.sent + if v.table.posture < v'.table.posture == 3 then [Alert(0x31, 2, 0, 0)] else []
  {
    assert v.table.posture >= HIGH ==> forall c :: 0 <= c < |v.table.cpus| ==> v.table.cpus[c].strategy == 4;
  }

  lemma ReportAnswers(v: View, a: Alert, topo: Topology, now: nat)
    requires Good(v)
    ensures var v' := Reported(v, a, topo, now);
            && Answers(v, a, topo, now, v')
            && v'.sent == v.sent + [a] + if v.table.posture < v'.table.posture == 3 then [Alert(0x31, 2, 0, 0)] else []
  {
    var v1 := v.(sent := v.sent + [a]);
    ActedAnswers(v1, a, topo, now);
    EscalationKeepsSound(v.table, Escalations(a, topo));
    WantedIs(a);
    var v' := Reported(v, a, topo, now);
    forall c | 0 <= c < |v.table.cpus|
      ensures |v'.table.cpus| == |v.table.cpus| && CpuAnswers(v, a, topo, v', c)
    {
      assert CpuAnswers(v1, a, topo, v', c);
    }
    hide EscalatedBy, Escalations, OnCore, PostureFor, Wanted;
    if Wanted(a.code, a.level) > NORMAL {
      RaisedAnswers(v1.(table := EscalatedBy(v.table, Escalations(a, topo))), Wanted(a.code, a.level), a.code, now);
    }
  }

  function Reported(v: View, a: Alert, topo: Topology, now: nat): View
    requires Good(v)
  {
    Acted(v.(sent := v.sent + [a]), a, topo, now)
  }

  /** An alert that asks for nothing is only delivered. */
  lemma JustSent(v: View, a: Alert, topo: Topology, now: nat)
    requires Good(v) && Wanted(a.code, a.level) == NORMAL
    ensures Reported(v, a, topo, now) == v.(sent := v.sent + [a])
  {
  }

  function Operated(v: View, target: nat, now: nat): (Rc, View)
    requires Good(v)
  {
    var was := v.table.posture;
    if target >= POSTURES then (Invalid, v)
    else if !v.ready then (NoDevice, v)
    else if target == was then (Ok, v)
    else if target < was && was >= HIGH && v.untrusted then (Unclean, v)
    else
      var v1 := Restarted(Moved(v.(triggerMono := now), target));
      (Ok, v1.(sent := v1.sent + [Announcement(was, target, WHY_OPERATOR, v.trigger)]))
  }

  /** The operator's step, field by field. */
  lemma OperatedMeans(v: View, target: nat, now: nat)
    requires Good(v) && target < POSTURES && target != v.table.posture
    ensures var v' := Restarted(Moved(v.(triggerMono := now), target));
            && v'.table.posture == target && v'.triggerMono == now && v'.trigger == v.trigger
            && v'.entered == v.entered[target := v.entered[target] + 1]
            && v'.sent == v.sent + if target == 3 then [Alert(0x31, 2, 0, 0)] else []
  {
  }

  function Decayed(v: View, now: nat): View
    requires Good(v)
  {
    var secs := Min(v.params.decayS, MAX_DECAY_S);
    if !v.ready || secs == 0 || v.table.posture != ELEVATED then v.(timer := false)
    else if now < (v.triggerMono + secs * SEC) % U64 then v.(timer := true)
    else
      var v1 := Moved(v.(timer := false), NORMAL);
      v1.(sent := v1.sent + [Announcement(ELEVATED, NORMAL, WHY_DECAY, v.trigger)])
  }

  // ----- One call at a time, each entry is told of once -----

  lemma MovedTold(v: View, p: nat)
    requires Good(v) && p < POSTURES
    ensures Told(Moved(v, p).sent) + v.entered[FAILSAFE] == Told(v.sent) + Moved(v, p).entered[FAILSAFE]
    ensures Good(Moved(v, p))
  {
    ToldNext(v.sent, FailsafeAlert());
    assert v.sent + [] == v.sent;
    SectionsKeepSound(v.table, 0, Probe(0, 0, 0, 0, 0, 0), p);
  }

  /** A report tells of FAILSAFE exactly when it leads there. */
  lemma ReportTold(v: View, a: Alert, topo: Topology, now: nat)
    requires Good(v) && a.code != FAILSAFE_ENTERED
    ensures var v' := Reported(v, a, topo, now);
            Good(v') && Told(v'.sent) + v.entered[FAILSAFE] == Told(v.sent) + v'.entered[FAILSAFE]
  {
    hide WithPosture, Told, Sound;
    ToldNext(v.sent, a);
    EscalationKeepsSound(v.table, Escalations(a, topo));
    WantedBounded(a.code, a.level);
    var v1 := v.(sent := v.sent + [a], table := EscalatedBy(v.table, Escalations(a, topo)));
    assert Good(v1);
    if Wanted(a.code, a.level) > NORMAL {
      RaisedTold(v1, Wanted(a.code, a.level), a.code, now);
    }
  }

  lemma RaisedTold(v: View, wanted: nat, cause: nat, now: nat)
    requires Good(v) && wanted < POSTURES
    ensures var v' := Raised(v, wanted, cause, now);
            && Good(v') && Told(v'.sent) + v.entered[FAILSAFE] == Told(v.sent) + v'.entered[FAILSAFE]
            && (v.ready ==> v'.table.posture == Max(v.table.posture, Min(wanted, Cap(v.params))))
  {
    hide WithPosture, Told;
    var target := Min(wanted, Cap(v.params));
    var v1 := Noted(v, target, cause, now);
    assert Good(v1);
    MovedTold(v1, Max(v.table.posture, target));
    MovedPosture(v1, Max(v.table.posture, target));
  }

  lemma MovedPosture(v: View, p: nat)
    requires Good(v) && p < POSTURES
    ensures Moved(v, p).table.posture == p
  {
  }

  // ----- The calls step by step -----

  /** Lock held: the posture is applied and counted. */
  function Applied(v: View, target: nat): View
    requires target < |v.entered|
  {
    v.(table := WithPosture(v.table, target), failFlag := v.failFlag && target == FAILSAFE,
       entered := v.entered[target := v.entered[target] + 1])
  }

  lemma RaisedUp(v: View, wanted: nat, cause: nat, now: nat)
    requires Good(v) && v.ready && Min(wanted, Cap(v.params)) > v.table.posture
    ensures var target := Min(wanted, Cap(v.params));
            Raised(v, wanted, cause, now) ==
            WentUp(Restarted(Applied(Noted(v, target, cause, now), target)), target)
  {
    hide WithPosture, Sound;
  }

  lemma ChangedIs(v: View, target: nat, now: nat)
    requires Good(v) && target < POSTURES && target != v.table.posture
    ensures var up := Restarted(Applied(v, target).(triggerMono := now));
            Restarted(Moved(v.(triggerMono := now), target)) == if target > v.table.posture then WentUp(up, target) else up
  {
    hide WithPosture;
  }

  lemma RaisedHeld(v: View, wanted: nat, cause: nat, now: nat)
    requires Good(v) && v.ready && Min(wanted, Cap(v.params)) <= v.table.posture
    ensures Raised(v, wanted, cause, now) == Restarted(Noted(v, Min(wanted, Cap(v.params)), cause, now))
  {
    hide WithPosture, Sound;
  }
}

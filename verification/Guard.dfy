/**
 The guarded policy table: the posture, and for every CPU the strategy the capability probe chose and the one in
 force.  Every change is made and re-hashed in one critical section.
 */
module Guard {
  const NORMAL := 0
  const ELEVATED := 1
  const HIGH := 2
  const FAILSAFE := 3
  const POSTURES := 4

  const STRAT_FULL := 4

  datatype Probe = Probe(features: nat, strategy: nat, cost: nat, catWays: nat, sensCbm: nat, defCbm: nat)

  datatype Cpu = Cpu(probe: Probe, strategy: nat) {
    function Base(): nat { probe.strategy }
  }

  datatype Table = Table(posture: nat, failsafe: bool, cpus: seq<Cpu>)

  /** What holds of the table whenever the lock is free. */
  ghost predicate Sound(t: Table) {
    && t.posture < POSTURES
    && (t.failsafe <==> t.posture == FAILSAFE)
    && (forall i :: 0 <= i < |t.cpus| ==> t.cpus[i].strategy == t.cpus[i].Base() || t.cpus[i].strategy == STRAT_FULL)
    && (t.posture >= HIGH ==> forall i :: 0 <= i < |t.cpus| ==> t.cpus[i].strategy == STRAT_FULL)
  }

  // ----- What each critical section makes of the table -----

  function Stored(t: Table, cpu: nat, p: Probe): Table
    requires cpu < |t.cpus|
  {
    t.(cpus := t.cpus[cpu := Cpu(p, if t.posture >= HIGH then STRAT_FULL else p.strategy)])
  }

  function Full(cpus: seq<Cpu>): seq<Cpu> {
    seq(|cpus|, i requires 0 <= i < |cpus| => cpus[i].(strategy := STRAT_FULL))
  }

  function Restored(cpus: seq<Cpu>): seq<Cpu> {
    seq(|cpus|, i requires 0 <= i < |cpus| => cpus[i].(strategy := cpus[i].Base()))
  }

  /** HIGH and FAILSAFE hold every CPU at full-spectrum; leaving them restores the baselines. */
  function WithPosture(t: Table, posture: nat): Table {
    Table(posture, posture == FAILSAFE,
          if posture >= HIGH then Full(t.cpus) else if t.posture >= HIGH then Restored(t.cpus) else t.cpus)
  }

  /** An index outside the table changes nothing. */
  function Escalated(t: Table, cpu: int): Table {
    if 0 <= cpu < |t.cpus| then t.(cpus := t.cpus[cpu := t.cpus[cpu].(strategy := STRAT_FULL)]) else t
  }

  function Relaxed(t: Table, cpu: int): Table {
    if 0 <= cpu < |t.cpus| && t.posture < HIGH
    then t.(cpus := t.cpus[cpu := t.cpus[cpu].(strategy := t.cpus[cpu].Base())])
    else t
  }

  lemma SectionsKeepSound(t: Table, cpu: int, p: Probe, posture: nat)
    requires Sound(t) && posture < POSTURES
    ensures 0 <= cpu < |t.cpus| ==> Sound(Stored(t, cpu, p))
    ensures Sound(WithPosture(t, posture))
    ensures Sound(Escalated(t, cpu)) && Sound(Relaxed(t, cpu))
  {
    if 0 <= cpu < |t.cpus| && t.posture < HIGH {
      var r := Relaxed(t, cpu);
      assert forall i :: 0 <= i < |r.cpus| && i != cpu ==> r.cpus[i] == t.cpus[i];
    }
  }

  /** Posture changes that stay below HIGH leave the sampler's escalations in force. */
  lemma BelowHighKeepsEscalations(t: Table, posture: nat)
    requires t.posture < HIGH && posture < HIGH
    ensures WithPosture(t, posture).cpus == t.cpus
  {
  }

  /** Up to HIGH and back restores the baseline of every CPU, whatever was escalated before. */
  lemma UpAndBack(t: Table, high: nat, low: nat)
    requires high >= HIGH > low
    ensures WithPosture(WithPosture(t, high), low) == Table(low, false, Restored(t.cpus))
  {
    assert Restored(Full(t.cpus)) == Restored(t.cpus);
  }

  /** The table with its digest; `sha` stands for the hash of header and CPU records. */
  class State<D(==)> {
    var posture: nat
    var failsafe: bool
    const cpus: array<Cpu>
    var digest: D
    var valid: bool
    const sha: Table -> D

    ghost function Now(): Table
      reads this, cpus
    {
      Table(posture, failsafe, cpus[..])
    }

    /** The digest is that of the table. */
    ghost predicate Matches()
      reads this, cpus
    {
      valid && digest == sha(Now())
    }

    constructor (ncpu: nat, none: Cpu, sha: Table -> D, d: D)
      requires none.strategy == none.Base()
      ensures fresh(cpus) && cpus.Length == ncpu && this.sha == sha && !valid
      ensures Now() == Table(NORMAL, false, seq(ncpu, i => none)) && Sound(Now())
    {
      this.posture, this.failsafe, this.digest, this.valid, this.sha := NORMAL, false, d, false, sha;
      this.cpus := new Cpu[ncpu](i => none);
      new;
      assert cpus[..] == seq(ncpu, i => none);
    }

    /** End of a critical section; `hashed` says whether the digest could be computed. */
    method Release(hashed: bool)
      modifies this`digest, this`valid
      ensures if hashed then Matches() else digest == old(digest) && valid == old(valid)
    {
      if hashed {
        digest := sha(Table(posture, failsafe, cpus[..]));
        valid := true;
      }
    }

    method Store(cpu: nat, p: Probe, hashed: bool)
      requires cpu < cpus.Length
      modifies this, cpus
      ensures Now() == Stored(old(Now()), cpu, p)
      ensures cpus[cpu].probe == p && cpus[cpu].strategy == if posture >= 2 then 4 else p.strategy
      ensures posture == old(posture) && forall i :: 0 <= i < cpus.Length && i != cpu ==> cpus[i] == old(cpus[i])
      ensures if hashed then Matches() else digest == old(digest) && valid == old(valid)
    {
      cpus[cpu] := Cpu(p, if posture >= HIGH then STRAT_FULL else p.strategy);
      Release(hashed);
    }

    method AllFull()
      modifies cpus
      ensures cpus[..] == Full(old(cpus[..]))
    {
      var cpu := 0;
      while cpu < cpus.Length
        invariant cpu <= cpus.Length
        invariant forall i :: 0 <= i < cpu ==> cpus[i] == old(cpus[i]).(strategy := STRAT_FULL)
        invariant forall i :: cpu <= i < cpus.Length ==> cpus[i] == old(cpus[i])
      {
        cpus[cpu] := cpus[cpu].(strategy := STRAT_FULL);
        cpu := cpu + 1;
      }
    }

    method AllBase()
      modifies cpus
      ensures cpus[..] == Restored(old(cpus[..]))
    {
      var cpu := 0;
      while cpu < cpus.Length
        invariant cpu <= cpus.Length
        invariant forall i :: 0 <= i < cpu ==> cpus[i] == old(cpus[i]).(strategy := old(cpus[i]).Base())
        invariant forall i :: cpu <= i < cpus.Length ==> cpus[i] == old(cpus[i])
      {
        cpus[cpu] := cpus[cpu].(strategy := cpus[cpu].Base());
        cpu := cpu + 1;
      }
    }

    method SetPosture(target: nat, hashed: bool)
      modifies this, cpus
      ensures Now() == WithPosture(old(Now()), target)
      ensures posture == target && failsafe == (target == 3)
      ensures forall i :: 0 <= i < cpus.Length ==>
                && cpus[i].probe == old(cpus[i]).probe
                && cpus[i].strategy == if target >= 2 then 4
                                       else if old(posture) >= 2 then cpus[i].probe.strategy
                                       else old(cpus[i]).strategy
      ensures if hashed then Matches() else digest == old(digest) && valid == old(valid)
    {
      if target >= HIGH {
        AllFull();
      } else if posture >= HIGH {
        AllBase();
      }
      posture := target;
      failsafe := target == FAILSAFE;
      Release(hashed);
    }

    /** True only for the caller that made the transition. */
    method EnterFailsafe(hashed: bool) returns (made: bool)
      requires Sound(Now())
      modifies this, cpus
      ensures made == (old(posture) != FAILSAFE)
      ensures Now() == WithPosture(old(Now()), FAILSAFE) && Sound(Now())
      ensures if hashed then Matches() else digest == old(digest) && valid == old(valid)
    {
      if failsafe {
        assert cpus[..] == Full(cpus[..]);
        Release(hashed);
        return false;
      }
      failsafe := true;
      posture := FAILSAFE;
      AllFull();
      Release(hashed);
      return true;
    }

    method EscalateCpu(cpu: int, hashed: bool)
      modifies this, cpus
      ensures Now() == Escalated(old(Now()), cpu)
      ensures 0 <= cpu < cpus.Length ==> cpus[cpu] == old(cpus[cpu]).(strategy := 4)
      ensures posture == old(posture) && forall i :: 0 <= i < cpus.Length && i != cpu ==> cpus[i] == old(cpus[i])
      ensures if hashed && 0 <= cpu < cpus.Length then Matches() else digest == old(digest) && valid == old(valid)
    {
      if cpu < 0 || cpu >= cpus.Length {
        return;
      }
      cpus[cpu] := cpus[cpu].(strategy := STRAT_FULL);
      Release(hashed);
    }

    method RelaxCpu(cpu: int, hashed: bool)
      modifies this, cpus
      ensures Now() == Relaxed(old(Now()), cpu)
      ensures 0 <= cpu < cpus.Length && posture < 2 ==> cpus[cpu].strategy == cpus[cpu].probe.strategy == old(cpus[cpu]).probe.strategy
      ensures posture == old(posture) && forall i :: 0 <= i < cpus.Length && (i != cpu || posture >= 2) ==> cpus[i] == old(cpus[i])
      ensures if hashed && 0 <= cpu < cpus.Length then Matches() else digest == old(digest) && valid == old(valid)
    {
      if cpu < 0 || cpu >= cpus.Length {
        return;
      }
      if posture < HIGH {
        cpus[cpu] := cpus[cpu].(strategy := cpus[cpu].Base());
      }
      Release(hashed);
    }

    method Verify(hashed: bool) returns (ok: bool)
      ensures ok <==> hashed && Matches()
    {
      if !valid || !hashed {
        return false;
      }
      var now := sha(Table(posture, failsafe, cpus[..]));
      return now == digest;
    }
  }
}

/** The escalation engine as the monitor runs it: 64 slots updated in place. */
module Engine {
  import opened Options
  import opened Incidents
  import opened IncidentRuns
  import opened IncidentTable
  import opened RuleRuns
  import Policy = PolicyParse

  /** One program started for an alert. */
  datatype Call = Call(action: nat, why: Fired)

  /** The actions of a mask among the first n, in order. */
  function Started(f: Fired, n: nat): seq<Call> {
    if n == 0 then [] else Started(f, n - 1) + if n - 1 in f.mask then [Call(n - 1, f)] else []
  }

  function AllStarted(fs: seq<Fired>, n: nat): seq<Call> {
    if fs == [] then [] else AllStarted(fs[..|fs| - 1], n) + Started(fs[|fs| - 1], n)
  }

  lemma OneMoreStarted(fs: seq<Fired>, f: Fired, n: nat)
    ensures AllStarted(fs + [f], n) == AllStarted(fs, n) + Started(f, n)
  {
    assert (fs + [f])[..|fs|] == fs;
  }

  /** Every action of a decision's mask is started for it, and nothing else. */
  lemma {:induction false} StartedExactly(f: Fired, n: nat, a: nat, g: Fired)
    ensures Call(a, g) in Started(f, n) <==> g == f && a < n && a in f.mask
  {
    if n > 0 {
      StartedExactly(f, n - 1, a, g);
    }
  }

  lemma {:induction false} CallsExactly(fs: seq<Fired>, n: nat, a: nat, g: Fired)
    ensures Call(a, g) in AllStarted(fs, n) <==> g in fs && a < n && a in g.mask
  {
    if fs != [] {
      var k := |fs| - 1;
      CallsExactly(fs[..k], n, a, g);
      StartedExactly(fs[k], n, a, g);
      assert fs == fs[..k] + [fs[k]];
    }
  }

  /** The hits of an alert on the first n rules. */
  function AlertMoves(al: Alert, now: nat, n: nat): seq<Move> {
    seq(n, (ri: nat) => Hits(ri, al, now))
  }

  class Monitor {
    const nactions: nat
    const rules: seq<Rule>
    const inc: array<Option<Incident>>
    var calls: seq<Call>
    ghost var fired: seq<Fired>

    ghost function Now(): Table
      reads this, inc
    {
      Table(inc[..], fired)
    }

    ghost predicate Valid()
      reads this, inc
    {
      Fine(Now(), rules) && calls == AllStarted(fired, nactions)
    }

    constructor (nactions: nat, rules: seq<Rule>)
      ensures Valid() && Now() == Empty() && this.rules == rules && this.nactions == nactions && fresh(inc)
    {
      this.nactions, this.rules, calls, fired := nactions, rules, [], [];
      inc := new Option<Incident>[SLOTS](i => None);
      new;
      assert inc[..] == Empty().slots;
    }

    method RunMask(f: Fired)
      modifies this`calls, this`fired
      ensures fired == old(fired) + [f]
      ensures old(calls == AllStarted(fired, nactions)) ==> calls == AllStarted(fired, nactions)
    {
      var i := 0;
      while i < nactions
        invariant i <= nactions && calls == old(calls) + Started(f, i) && fired == old(fired)
      {
        if i in f.mask {
          calls := calls + [Call(i, f)];
        }
        i := i + 1;
      }
      OneMoreStarted(fired, f, nactions);
      fired := fired + [f];
    }

    /** The incident for a key, or the slot to put it in. */
    method IncidentSlot(k: Key) returns (j: nat, isNew: bool)
      requires inc.Length == SLOTS
      ensures j == Pick(inc[..], k) && j < SLOTS && isNew == !Is(inc[j], k)
    {
      var free, oldest: Option<nat> := None, None;
      var i := 0;
      while i < SLOTS
        invariant i <= SLOTS && free == FreeIn(inc[..], i) && oldest == OldestIn(inc[..], i) && KeyIn(inc[..], i, k).None?
      {
        if inc[i].Some? && inc[i].value.key == k {
          KeyStays(inc[..], i + 1, k);
          return i, false;
        }
        if inc[i].None? && free.None? {
          free := Some(i);
        }
        if inc[i].Some? && (oldest.None? || inc[i].value.last < inc[oldest.value].value.last) {
          oldest := Some(i);
        }
        i := i + 1;
      }
      isNew := true;
      j := if free.Some? then free.value else oldest.value;
      assert !Is(inc[..][j], k);
    }

    lemma KeyStays(s: Slots, n: nat, k: Key)
      requires n <= |s| && KeyIn(s, n, k).Some?
      ensures KeyIn(s, |s|, k) == KeyIn(s, n, k)
      decreases |s| - n
    {
      if n < |s| {
        KeyStays(s, n + 1, k);
      }
    }

    /** The slot's incident takes the alert in; a new or acknowledged one starts over. */
    method TakeIn(r: Rule, cur: Option<Incident>, k: Key, al: Alert, now: nat) returns (i: Incident)
      requires WellSized(cur)
      modifies this`calls, this`fired
      ensures i == OnAlert(r, cur, k, al, now).0 && fired == old(fired) + OnAlert(r, cur, k, al, now).1
      ensures old(calls == AllStarted(fired, nactions)) ==> calls == AllStarted(fired, nactions)
    {
      var isNew := cur.None? || cur.value.acked;
      if isNew {
        i := Blank(k, now, al);
      } else {
        i := cur.value;
      }
      i := i.(alert := al, last := now, lastSeq := al.sequence, recent := i.recent[i.count % MAX_REPEAT := now],
              count := (i.count + 1) % U32);
      assert i == Recorded(Opened(cur, k, al, now), al, now);
      var runBase := isNew || Since(now, i.lastRun) >= r.throttle;
      if runBase {
        i := i.(lastRun := now);
        RunMask(Fired(i.key, 0, r.doMask, now, i.alert, i.count, i.first));
      }
      assert i == AfterBase(r, cur, k, al, now);
      hide Recorded, Opened, AllStarted, AfterBase;
      if r.repeatN != 0 && !i.escalated && i.count >= r.repeatN {
        var nth := i.recent[(i.count - r.repeatN) % MAX_REPEAT];
        if Since(now, nth) <= r.window {
          i := i.(escalated := true);
          RunMask(Fired(i.key, 1, r.thenMask, now, i.alert, i.count, i.first));
        }
      }
    }

    /** One rule of an alert. */
    method ApplyRule(ri: nat, al: Alert, now: nat)
      requires Valid() && ri < |rules|
      modifies this`calls, this`fired, inc
      ensures Valid() && Now() == Hit(old(Now()), rules, ri, al, now)
      ensures old(fired) <= fired
      ensures RuleActs(rules, ri, al, now, old(Open(inc[..], Key(ri, al.code, al.p1))), fired[|old(fired)|..])
    {
      HitFine(Now(), rules, ri, al, now);
      HitActs(Now(), rules, ri, al, now);
      hide RuleActs, Open;
      var r := rules[ri];
      if al.level < r.minLevel {
        return;
      }
      if r.codes != [] && al.code !in r.codes {
        return;
      }
      hide OnAlert, AllStarted;
      var k := KeyFor(ri, al);
      ghost var t := Now();
      var j, isNew := IncidentSlot(k);
      var i := TakeIn(r, if isNew then None else inc[j], k, al, now);
      inc[j] := Some(i);
      assert inc[..] == t.slots[j := Some(i)];
    }

    method Alert(al: Alert, now: nat)
      requires Valid()
      modifies this`calls, this`fired, inc
      ensures Valid() && Now() == After(old(Now()), rules, AlertMoves(al, now, |rules|))
      // a decision for every rule the alert concerns and that has no open incident for it, and for no other rule
      ensures old(fired) <= fired && AlertActs(rules, |rules|, al, now, old(inc[..]), fired[|old(fired)|..])
      // carried out for exactly the actions of its list
      ensures forall a: nat, f :: Call(a, f) in calls <==> f in fired && a < nactions && a in f.mask
    {
      hide AlertActs, Open, RuleActs;
      ghost var t := Now();
      var ri := 0;
      assert AlertMoves(al, now, 0) == [];
      NoRulesYet(rules, al, now, t);
      while ri < |rules|
        invariant ri <= |rules| && Valid() && Now() == After(old(Now()), rules, AlertMoves(al, now, ri))
        invariant t.fired <= fired && AlertActs(rules, ri, al, now, t.slots, fired[|t.fired|..])
        invariant forall q :: Open(inc[..], q) ==> q.rule < ri || Open(t.slots, q)
      {
        NextRule(rules, ri, al, now, t, Now());
        AfterNext(old(Now()), rules, AlertMoves(al, now, ri), Hits(ri, al, now));
        assert AlertMoves(al, now, ri + 1) == AlertMoves(al, now, ri) + [Hits(ri, al, now)];
        ApplyRule(ri, al, now);
        ri := ri + 1;
      }
      forall a: nat, f
        ensures Call(a, f) in calls <==> f in fired && a < nactions && a in f.mask
      {
        CallsExactly(fired, nactions, a, f);
      }
    }

    /** One incident at a tick: forgotten, escalated by age, or left alone. */
    method TickSlot(i: nat, now: nat)
      requires i < inc.Length && inc[i].Some? && inc[i].value.key.rule < |rules|
      modifies this`calls, this`fired, inc
      ensures inc[..] == old(inc[..])[i := TickOne(old(inc[i]), rules, now).0]
      ensures fired == old(fired) + TickOne(old(inc[i]), rules, now).1
      ensures old(calls == AllStarted(fired, nactions)) ==> calls == AllStarted(fired, nactions)
    {
      hide AllStarted;
      var in0 := inc[i].value;
      var r := rules[in0.key.rule];
      if Since(now, in0.last) >= r.reset {
        inc[i] := None;
      } else if r.unacked != 0 && !in0.acked && !in0.escalated && Since(now, in0.first) >= r.unacked {
        var in1 := in0.(escalated := true);
        inc[i] := Some(in1);
        RunMask(Fired(in1.key, 1, r.thenMask, now, in1.alert, in1.count, in1.first));
      }
    }

    method Tick(now: nat)
      requires Valid()
      modifies this`calls, this`fired, inc
      ensures Valid() && Now() == TableTicked(old(Now()), rules, now, SLOTS)
    {
      TickFine(Now(), rules, now);
      hide TickOne, AllStarted, Distinct;
      ghost var t := Now();
      var i := 0;
      while i < SLOTS
        invariant i <= SLOTS && Now() == TableTicked(t, rules, now, i) && calls == AllStarted(fired, nactions)
      {
        assert inc[i] == t.slots[i];
        if inc[i].Some? {
          TickSlot(i, now);
        }
        assert inc[..] == TableTicked(t, rules, now, i + 1).slots;
        i := i + 1;
      }
    }

    method Ack(upTo: nat)
      requires Valid()
      modifies inc
      ensures Valid() && Now() == TableAcked(old(Now()), upTo)
    {
      ghost var t := Now();
      AckOn(t, rules, upTo, Key(0, 0, 0));
      var i := 0;
      while i < SLOTS
        invariant i <= SLOTS && fired == t.fired && inc.Length == SLOTS
        invariant forall j :: 0 <= j < i ==> inc[j] == AckOne(t.slots[j], upTo)
        invariant forall j :: i <= j < SLOTS ==> inc[j] == t.slots[j]
      {
        if inc[i].Some? && Covers(upTo, inc[i].value.lastSeq) {
          inc[i] := Some(inc[i].value.(acked := true));
        }
        i := i + 1;
      }
      assert inc[..] == TableAcked(t, upTo).slots;
    }

    /** Used and not acknowledged. */
    method OpenIncidents() returns (n: nat)
      requires Valid()
      ensures n == Unacked(inc[..], SLOTS)
    {
      n := 0;
      var i := 0;
      while i < SLOTS
        invariant i <= SLOTS && n == Unacked(inc[..], i)
      {
        if inc[i].Some? && !inc[i].value.acked {
          n := n + 1;
        }
        i := i + 1;
      }
    }
  }

  lemma NoRulesYet(rules: seq<Rule>, al: Alert, now: nat, t: Table)
    ensures AlertActs(rules, 0, al, now, t.slots, t.fired[|t.fired|..])
  {
  }

  function Unacked(s: Slots, n: nat): nat
    requires n <= |s|
  {
    if n == 0 then 0 else Unacked(s, n - 1) + if s[n - 1].Some? && !s[n - 1].value.acked then 1 else 0
  }

  /** The moves one after the other. */
  ghost function After(t: Table, rules: seq<Rule>, ms: seq<Move>): (t': Table)
    requires Fine(t, rules) && MovesOk(rules, ms)
    ensures Fine(t', rules)
  {
    if ms == [] then t
    else
      var p := After(t, rules, ms[..|ms| - 1]);
      MovedFine(rules, p, ms[|ms| - 1]);
      Moved(rules, p, ms[|ms| - 1])
  }

  lemma AfterNext(t: Table, rules: seq<Rule>, ms: seq<Move>, m: Move)
    requires Fine(t, rules) && MovesOk(rules, ms + [m])
    ensures MovesOk(rules, ms) && After(t, rules, ms + [m]) == Moved(rules, After(t, rules, ms), m)
  {
    assert (ms + [m])[..|ms|] == ms;
    assert (ms + [m])[|ms|] == m;
    assert forall i :: 0 <= i < |ms| ==> (ms + [m])[i] == ms[i];
  }

  /** A fresh engine that has seen the moves is in the state their run describes. */
  lemma {:induction false} AfterIsRan(rules: seq<Rule>, ms: seq<Move>)
    requires MovesOk(rules, ms)
    ensures Fine(Empty(), rules) && After(Empty(), rules, ms) == Reached(rules, ms)
  {
    if ms != [] {
      AfterIsRan(rules, ms[..|ms| - 1]);
    }
  }

  /** For every accepted policy text, every run of the engine is sane for every key. */
  lemma AcceptedTextIsSane(text: string, runnable: string -> bool, ms: seq<Move>, k: Key)
    requires Policy.Parsed(text, 0, Policy.Policy([], []), runnable).0 == 0
    requires var rules := Policy.Parsed(text, 0, Policy.Policy([], []), runnable).1.rules;
             MovesOk(rules, ms) && InOrder(ms) && k.rule < |rules|
    ensures var rules := Policy.Parsed(text, 0, Policy.Policy([], []), runnable).1.rules;
            var t, s := Reached(rules, ms), Told(rules[k.rule], Projected(rules, ms, k));
            Distinct(t.slots) && Agree(rules[k.rule], Life(Lookup(t.slots, k), Of(t.fired, k)), s)
  {
    var pol := Policy.Parsed(text, 0, Policy.Policy([], []), runnable).1;
    Policy.NothingIsOk();
    Policy.ParsedIsOk(text, 0, Policy.Policy([], []), runnable);
    assert Policy.RuleOk(pol.rules[k.rule], |pol.actions|);
    hide Policy.Parsed, Reached, Agree, Lookup;
    EngineIsSane(pol.rules, ms, k);
  }
}

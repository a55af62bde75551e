/** Which rules act on an alert, and what they run. */
module RuleRuns {
  import opened Options
  import opened Incidents
  import opened IncidentRuns
  import opened IncidentTable

  /** An incident for the key that nobody has acknowledged. */
  ghost predicate Open(s: Slots, k: Key) {
    exists j :: 0 <= j < |s| && s[j].Some? && s[j].value.key == k && !s[j].value.acked
  }

  /** One decision taken on an alert: by a rule it concerns, now, and for one of the rule's two lists. */
  ghost predicate RunRight(rules: seq<Rule>, al: Alert, now: nat, f: Fired) {
    && f.key.rule < |rules| && f.key.code == al.code && f.key.p1 == al.p1 && f.at == now && f.alert == al
    && var r := rules[f.key.rule];
       && al.level >= r.minLevel && (r.codes == [] || al.code in r.codes)
       && ((f.tier == 0 && f.mask == r.doMask) || (f.tier == 1 && f.mask == r.thenMask))
  }

  /** The first decision of a new episode: do=, with a count of one. */
  function FirstRun(rules: seq<Rule>, ri: nat, al: Alert, now: nat): Fired
    requires ri < |rules|
  {
    Fired(Key(ri, al.code, al.p1), 0, rules[ri].doMask, now, al, 1, now)
  }

  /** What one rule adds for an alert. */
  ghost predicate RuleActs(rules: seq<Rule>, ri: nat, al: Alert, now: nat, open: bool, fs: seq<Fired>)
    requires ri < |rules|
  {
    var r := rules[ri];
    && (forall i :: 0 <= i < |fs| ==> fs[i].key.rule == ri && RunRight(rules, al, now, fs[i]))
    && (al.level >= r.minLevel && (r.codes == [] || al.code in r.codes) && !open ==>
          fs != [] && fs[0] == FirstRun(rules, ri, al, now))
  }

  lemma FreshRuns(r: Rule, i: Option<Incident>, k: Key, al: Alert, now: nat)
    requires WellSized(i) && (i.Some? ==> i.value.key == k)
    ensures var fs := OnAlert(r, i, k, al, now).1;
            && (forall j :: 0 <= j < |fs| ==>
                  && fs[j].key == k && fs[j].at == now && fs[j].alert == al
                  && ((fs[j].tier == 0 && fs[j].mask == r.doMask) || (fs[j].tier == 1 && fs[j].mask == r.thenMask)))
            && (i.None? || i.value.acked ==> fs != [] && fs[0] == Fired(k, 0, r.doMask, now, al, 1, now))
  {
  }

  lemma HitActs(t: Table, rules: seq<Rule>, ri: nat, al: Alert, now: nat)
    requires Fine(t, rules) && ri < |rules|
    ensures var t', k := Hit(t, rules, ri, al, now), Key(ri, al.code, al.p1);
            && t.fired <= t'.fired
            && RuleActs(rules, ri, al, now, Open(t.slots, k), t'.fired[|t.fired|..])
            && forall q :: Open(t'.slots, q) ==> q == k || Open(t.slots, q)
  {
    if Matches(rules[ri], al) {
      var k := KeyFor(ri, al);
      var j := Pick(t.slots, k);
      var cur := if Is(t.slots[j], k) then t.slots[j] else None;
      FreshRuns(rules[ri], cur, k, al, now);
      AlertKeys(rules[ri], cur, k, al, now);
      var (i, fs) := OnAlert(rules[ri], cur, k, al, now);
      hide OnAlert;
      var t' := Hit(t, rules, ri, al, now);
      assert t'.fired[|t.fired|..] == fs;
      if cur.Some? && !cur.value.acked {
        assert Open(t.slots, k);
      }
      forall q | Open(t'.slots, q)
        ensures q == k || Open(t.slots, q)
      {
        var m :| 0 <= m < |t'.slots| && t'.slots[m].Some? && t'.slots[m].value.key == q && !t'.slots[m].value.acked;
        assert m == j || t.slots[m] == t'.slots[m];
      }
    } else {
      assert t.fired[|t.fired|..] == [];
    }
  }

  /** What the first n rules add for an alert, the incidents before it in `slots`. */
  ghost predicate AlertActs(rules: seq<Rule>, n: nat, al: Alert, now: nat, slots: Slots, fs: seq<Fired>)
    requires n <= |rules|
  {
    && (forall i :: 0 <= i < |fs| ==> fs[i].key.rule < n && RunRight(rules, al, now, fs[i]))
    && (forall ri: nat :: ri < n && Concerned(rules, ri, al) && !Open(slots, Key(ri, al.code, al.p1)) ==>
          FirstRun(rules, ri, al, now) in fs)
  }

  /** The alert is severe enough for the rule, and of a kind it lists. */
  predicate Concerned(rules: seq<Rule>, ri: nat, al: Alert)
    requires ri < |rules|
  {
    al.level >= rules[ri].minLevel && (rules[ri].codes == [] || al.code in rules[ri].codes)
  }

  /** One more rule: those before it leave its incident closed if it was. */
  lemma NextRule(rules: seq<Rule>, n: nat, al: Alert, now: nat, t0: Table, t: Table)
    requires n < |rules| && Fine(t, rules) && t0.fired <= t.fired
    requires AlertActs(rules, n, al, now, t0.slots, t.fired[|t0.fired|..])
    requires forall q :: Open(t.slots, q) ==> q.rule < n || Open(t0.slots, q)
    ensures var t' := Hit(t, rules, n, al, now);
            && t0.fired <= t'.fired
            && AlertActs(rules, n + 1, al, now, t0.slots, t'.fired[|t0.fired|..])
            && forall q :: Open(t'.slots, q) ==> q.rule < n + 1 || Open(t0.slots, q)
  {
    HitActs(t, rules, n, al, now);
    hide Hit, Open, RunRight;
    var t' := Hit(t, rules, n, al, now);
    var a, b := t.fired[|t0.fired|..], t'.fired[|t.fired|..];
    assert t'.fired == t.fired + b;
    assert t'.fired[|t0.fired|..] == a + b;
    forall ri: nat | ri < n + 1 && Concerned(rules, ri, al) && !Open(t0.slots, Key(ri, al.code, al.p1))
      ensures FirstRun(rules, ri, al, now) in a + b
    {
      if ri == n {
        assert FirstRun(rules, ri, al, now) == b[0];
      } else {
        assert FirstRun(rules, ri, al, now) in a;
      }
    }
  }
}

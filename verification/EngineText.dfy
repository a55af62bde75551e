/** From the text of a policy to the programs an alert starts. */
module EngineText {
  import opened Options
  import opened Incidents
  import opened IncidentTable
  import opened RuleRuns
  import opened Engine
  import opened PolicyParse
  import opened PolicyPrint
  import opened PolicyRoundTrip

  // ----- What an accepted rule line says -----

  /** The value a word gives to a key, if it is that key's. */
  function ValueFor(tok: string, k: string): Option<string> {
    UptoWithin(tok, '=');
    var n := Upto(tok, '=');
    if n < |tok| && tok[..n] == k then Some(tok[n + 1..]) else None
  }

  /** The last word for a key counts. */
  function LastValue(toks: seq<string>, k: string): Option<string> {
    if toks == [] then None
    else
      var later := LastValue(toks[1..], k);
      if later.Some? then later else ValueFor(toks[0], k)
  }

  /** Codes, level and do= list of `d2` are those the words give, or still those of `d`. */
  ghost predicate Says(actions: seq<Action>, d: Draft, toks: seq<string>, d2: Draft) {
    && (match LastValue(toks, "alert")
        case None => d2.rule.codes == d.rule.codes
        case Some(v) => CodesOf(Parts(v, ',')) == Some(d2.rule.codes))
    && (match LastValue(toks, "level")
        case None => d2.rule.minLevel == d.rule.minLevel
        case Some(v) => Named(LEVELS, v).Some? && Named(LEVELS, v).value == d2.rule.minLevel)
    && (match LastValue(toks, "do")
        case None => d2.rule.doMask == d.rule.doMask
        case Some(v) => ListMask(actions, v) == Some(d2.rule.doMask))
  }

  lemma OneSays(actions: seq<Action>, d: Draft, tok: string)
    requires OptionTok(actions, d, tok).Some?
    ensures var d1 := OptionTok(actions, d, tok).value;
            && (match ValueFor(tok, "alert")
                case None => d1.rule.codes == d.rule.codes
                case Some(v) => CodesOf(Parts(v, ',')) == Some(d1.rule.codes))
            && (match ValueFor(tok, "level")
                case None => d1.rule.minLevel == d.rule.minLevel
                case Some(v) => Named(LEVELS, v).Some? && Named(LEVELS, v).value == d1.rule.minLevel)
            && (match ValueFor(tok, "do")
                case None => d1.rule.doMask == d.rule.doMask
                case Some(v) => ListMask(actions, v) == Some(d1.rule.doMask))
  {
    UptoWithin(tok, '=');
    hide CodesOf, Parts, Named, ListMask, Bounded, RepeatOf, Upto;
  }

  lemma {:induction false} WordsSay(actions: seq<Action>, d: Draft, toks: seq<string>)
    requires AllOptions(actions, d, toks).Some?
    ensures Says(actions, d, toks, AllOptions(actions, d, toks).value)
    decreases |toks|
  {
    hide CodesOf, Parts, Named, ListMask, OptionTok, ValueFor;
    if toks != [] {
      OneSays(actions, d, toks[0]);
      WordsSay(actions, OptionTok(actions, d, toks[0]).value, toks[1..]);
    }
  }

  /** The fields of an accepted rule that decide when it acts: what the line says last, or the defaults. */
  lemma RuleSays(pol: PolicyParse.Policy, tok: seq<string>)
    requires RuleOf(pol, tok).Some?
    ensures Says(pol.actions, Draft(FreshRule(tok[1]), false, None), tok[2..], Draft(RuleOf(pol, tok).value, true, None))
    ensures FreshRule(tok[1]).codes == [] && FreshRule(tok[1]).minLevel == 0
  {
    WordsSay(pol.actions, Draft(FreshRule(tok[1]), false, None), tok[2..]);
    hide AllOptions, CodesOf, Parts, Named, ListMask, LastValue, ValidName, Taken;
  }

  /**
   A line that names one alert and one level makes a rule for exactly the alerts of that code at or above that level.
   */
  lemma LineConcerns(pol: PolicyParse.Policy, tok: seq<string>, code: nat, level: int, al: Alert)
    requires RuleOf(pol, tok).Some? && KnownCode(code) && 0 <= level <= 3
    requires LastValue(tok[2..], "alert") == Some(NameOf(code)) && LastValue(tok[2..], "level") == Some(LevelName(level))
    ensures Concerned([RuleOf(pol, tok).value], 0, al) <==> al.code == code && al.level >= level
  {
    RuleSays(pol, tok);
    CodePlain(code);
    CodesRead([code]);
    LevelRead(level);
    assert CodeNames([code]) == [NameOf(code)];
    assert Commas([NameOf(code)]) == NameOf(code);
    hide RuleOf, CodesOf, Parts, Named, ListMask, LastValue, NameOf, LevelName, KnownCode;
  }

  // ----- A policy at work -----

  /** Loads a policy from its text and gives the fresh engine its first alert. */
  method FirstAlert(pol: PolicyParse.Policy, runnable: string -> bool, al: Alert, now: nat) returns (line: nat, m: Monitor)
    requires Printable(pol, runnable)
    ensures line == 0 && m.rules == pol.rules && m.nactions == |pol.actions|
    // the actions listed in do= of every rule for this kind of alert, at or below its level
    ensures forall ri: nat, a: nat :: ri < |pol.rules| && a in pol.rules[ri].doMask && Concerned(pol.rules, ri, al) ==>
              Call(a, FirstRun(pol.rules, ri, al, now)) in m.calls
    // and nothing for any other rule
    ensures forall a: nat, f :: Call(a, f) in m.calls ==>
              a < |pol.actions| && a in f.mask && RunRight(pol.rules, al, now, f)
  {
    hide Parsed, Print, PolicyOk, RunRight;
    RoundTrip(pol, runnable);
    var read;
    line, read := Parse(Print(pol), runnable);
    m := new Monitor(|read.actions|, read.rules);
    ghost var before := m.fired;
    NothingOpen(m.inc[..]);
    m.Alert(al, now);
    assert m.fired[0..] == m.fired;
    forall ri: nat, a: nat | ri < |pol.rules| && a in pol.rules[ri].doMask
      ensures a < |pol.actions|
    {
      MaskWithin(pol, runnable, ri, a);
    }
  }

  lemma MaskWithin(pol: PolicyParse.Policy, runnable: string -> bool, ri: nat, a: nat)
    requires Printable(pol, runnable) && ri < |pol.rules| && a in pol.rules[ri].doMask
    ensures a < |pol.actions|
  {
    hide ActionFits, ValidName, KnownCode;
    assert RuleFits(pol.rules[ri], |pol.actions|);
  }

  lemma NothingOpen(s: Slots)
    requires forall i :: 0 <= i < |s| ==> s[i].None?
    ensures forall k :: !Open(s, k)
  {
  }
}

/** Every policy, written out, is read back whole, and the engine that runs it does what the text says. */
module PolicyRoundTrip {
  import opened Options
  import opened Incidents
  import opened PolicyParse
  import opened PolicyPrint
  import Text = PolicyText

  // ----- Words that survive a line -----

  predicate Clean(s: string) {
    forall i :: 0 <= i < |s| ==> s[i] != '\n' && s[i] != '\\' && s[i] != Text.NUL
  }

  lemma CleanSound(s: string)
    requires Clean(s)
    ensures Sound(s)
  {
  }

  lemma CleanConcat(a: string, b: string)
    requires Clean(a) && Clean(b)
    ensures Clean(a + b)
  {
  }

  lemma PlainClean(s: string)
    requires Plain(s)
    ensures Clean(s)
  {
  }

  lemma {:induction false} CommasClean(list: seq<string>)
    requires forall i :: 0 <= i < |list| ==> Plain(list[i])
    ensures Clean(Commas(list))
    decreases |list|
  {
    hide Plain, Clean;
    if list == [] {
      NothingClean();
    } else {
      PlainClean(list[0]);
      if |list| > 1 {
        CommasClean(list[1..]);
        CommaClean();
        CleanConcat(list[0], ",");
        CleanConcat(list[0] + ",", Commas(list[1..]));
      }
    }
  }

  lemma NothingClean()
    ensures Clean([])
  {
  }

  lemma CommaClean()
    ensures Clean(",") && Clean("=") && Clean("/")
  {
  }

  lemma KeysClean()
    ensures Clean("alert") && Clean("level") && Clean("do") && Clean("throttle")
    ensures Clean("repeat") && Clean("unacked") && Clean("then") && Clean("reset")
    ensures Clean("rule") && Clean("action") && Clean("timeout")
  {
  }

  lemma OptClean(k: string, v: string)
    requires Clean(k) && Clean(v)
    ensures Clean(Opt(k, v))
  {
    hide Clean;
    CommaClean();
    CleanConcat(k, "=");
    CleanConcat(k + "=", v);
  }

  lemma NumberClean(n: nat)
    ensures Clean(Spelled(n, 10))
  {
    hide Spelled;
  }

  lemma LevelClean(level: int)
    ensures Clean(LevelName(level))
  {
  }

  ghost predicate AllSound(words: seq<string>) {
    forall i :: 0 <= i < |words| ==> Sound(words[i])
  }

  lemma SoundConcat(a: seq<string>, b: seq<string>)
    requires AllSound(a) && AllSound(b)
    ensures AllSound(a + b)
  {
    hide Sound;
  }

  lemma OptionSound(usual: bool, k: string, v: string)
    requires Clean(k) && (usual || Clean(v))
    ensures AllSound(Unless(usual, k, v))
  {
    hide Clean, Sound;
    if !usual {
      OptClean(k, v);
      CleanSound(Opt(k, v));
    }
  }

  lemma ListClean(actions: seq<Action>, mask: set<nat>)
    requires ActionsFit(actions)
    ensures Clean(ListText(actions, mask))
  {
    NamesBack(actions, mask, |actions|);
    hide ActionsFit, NamesIn, Plain, Clean, MaskOf;
    CommasClean(NamesIn(actions, mask, |actions|));
  }

  lemma CodesClean(codes: seq<nat>)
    ensures Clean(Commas(CodeNames(codes)))
  {
    hide Clean, Plain, NameOf;
    forall i | 0 <= i < |codes|
      ensures Plain(CodeNames(codes)[i])
    {
      CodePlain(codes[i]);
    }
    CommasClean(CodeNames(codes));
  }

  lemma RuleSound(actions: seq<Action>, r: Rule)
    requires ActionsFit(actions) && ValidName(r.name)
    ensures AllSound(RuleWords(actions, r))
  {
    hide Clean, AllSound, ActionsFit, ListText, Spelled, Commas, CodeNames, Unless, LevelName;
    KeysClean();
    CommaClean();
    CodesClean(r.codes);
    LevelClean(r.minLevel);
    ListClean(actions, r.doMask);
    NumberClean(r.throttle);
    OptionSound(r.codes == [], "alert", Commas(CodeNames(r.codes)));
    OptionSound(r.minLevel == 0, "level", LevelName(r.minLevel));
    OptionSound(false, "do", ListText(actions, r.doMask));
    OptionSound(r.throttle == 60, "throttle", Spelled(r.throttle, 10));
    LaterSound(actions, r);
    HeadSound(r.name);
    var a := Unless(r.codes == [], "alert", Commas(CodeNames(r.codes)));
    var b := Unless(r.minLevel == 0, "level", LevelName(r.minLevel));
    var c := [Opt("do", ListText(actions, r.doMask))];
    var e := Unless(r.throttle == 60, "throttle", Spelled(r.throttle, 10));
    DoSound(ListText(actions, r.doMask));
    SoundConcat(a, b);
    SoundConcat(a + b, c);
    SoundConcat(a + b + c, e);
    SoundConcat(a + b + c + e, Later(actions, r));
    OptionsSplit(actions, r);
    SoundConcat(["rule", r.name], RuleOptions(actions, r));
  }

  lemma DoSound(v: string)
    requires AllSound(Unless(false, "do", v))
    ensures AllSound([Opt("do", v)])
  {
  }

  lemma HeadSound(name: string)
    requires ValidName(name)
    ensures AllSound(["rule", name]) && AllSound(["action", name])
  {
    hide Plain, Clean, ValidName;
    NamePlain(name);
    PlainClean(name);
    KeysClean();
    CleanSound(name);
    CleanSound("rule");
    CleanSound("action");
  }

  lemma LaterSound(actions: seq<Action>, r: Rule)
    requires ActionsFit(actions)
    ensures AllSound(Later(actions, r))
  {
    hide Clean, AllSound, ActionsFit, ListText, Spelled, Unless;
    KeysClean();
    CommaClean();
    NumberClean(r.repeatN);
    NumberClean(r.window);
    NumberClean(r.unacked);
    NumberClean(r.reset);
    ListClean(actions, r.thenMask);
    var n, w := Spelled(r.repeatN, 10), Spelled(r.window, 10);
    CleanConcat(n, "/");
    CleanConcat(n + "/", w);
    OptionSound(r.repeatN == 0, "repeat", n + "/" + w);
    OptionSound(r.unacked == 0, "unacked", Spelled(r.unacked, 10));
    OptionSound(r.thenMask == {}, "then", ListText(actions, r.thenMask));
    OptionSound(r.reset == 3600, "reset", Spelled(r.reset, 10));
    var a := Unless(r.repeatN == 0, "repeat", n + "/" + w);
    var b := Unless(r.unacked == 0, "unacked", Spelled(r.unacked, 10));
    var c := Unless(r.thenMask == {}, "then", ListText(actions, r.thenMask));
    SoundConcat(a, b);
    SoundConcat(a + b, c);
    SoundConcat(a + b + c, Unless(r.reset == 3600, "reset", Spelled(r.reset, 10)));
  }

  // ----- Actions -----

  function ActionWords(a: Action): seq<string> {
    ["action", a.name] + Unless(a.timeout == 10, "timeout", Spelled(a.timeout, 10)) + a.argv
  }

  /** The action can be written in one line. */
  ghost predicate ActionFits(a: Action) {
    ActionOk(a) && AllSound(a.argv)
  }

  lemma ActionSound(a: Action)
    requires ActionFits(a)
    ensures AllSound(ActionWords(a))
  {
    hide Clean, AllSound, Spelled, Unless;
    KeysClean();
    NumberClean(a.timeout);
    OptionSound(a.timeout == 10, "timeout", Spelled(a.timeout, 10));
    HeadSound(a.name);
    var b := Unless(a.timeout == 10, "timeout", Spelled(a.timeout, 10));
    SoundConcat(["action", a.name], b);
    SoundConcat(["action", a.name] + b, a.argv);
  }

  lemma TimeoutRead(a: Action)
    requires ActionOk(a)
    ensures var w, i := ActionWords(a), if a.timeout == 10 then 2 else 3;
            && |w| == i + |a.argv| && w[0] == "action" && w[1] == a.name && w[i..] == a.argv
            && Timeout(w, 2, 10) == Some((i, a.timeout))
  {
    var w, i := ActionWords(a), if a.timeout == 10 then 2 else 3;
    hide Spelled, Bounded, ValidName;
    assert w[i..] == a.argv && w[i] == a.argv[0];
    if a.timeout != 10 {
      var v := Spelled(a.timeout, 10);
      NumberRead(a.timeout, 1, 3600);
      var t := w[2];
      assert t == "timeout" + "=" + v && t[..8] == "timeout=" && t[8..] == v && t[7] == '=';
      assert Timeout(w, 3, a.timeout) == Some((3, a.timeout));
    }
  }

  lemma ActionRead(pol: Policy, a: Action, runnable: string -> bool)
    requires ActionOk(a) && |pol.actions| < MAX_ACTIONS && ActionIndex(pol.actions, a.name).None? && runnable(a.argv[0])
    ensures ActionOf(pol, ActionWords(a), runnable) == Some(a)
  {
    TimeoutRead(a);
    hide ActionWords, Timeout, ValidName;
    var w, i := ActionWords(a), if a.timeout == 10 then 2 else 3;
    assert w[i] == a.argv[0] by { assert w[i..][0] == w[i]; }
  }

  // ----- Lines -----

  lemma {:induction false} EscapeNoEnd(w: string)
    requires '\n' !in w && Text.NUL !in w
    ensures '\n' !in Text.Escape(w) && Text.NUL !in Text.Escape(w)
  {
    if w != [] {
      assert w == [w[0]] + w[1..];
      EscapeNoEnd(w[1..]);
    }
  }

  lemma {:induction false} LineNoEnd(words: seq<string>)
    requires AllSound(words)
    ensures '\n' !in Text.Line(words) && Text.NUL !in Text.Line(words)
    decreases |words|
  {
    hide Text.Escape;
    if words != [] {
      EscapeNoEnd(words[0]);
      LineNoEnd(words[1..]);
    }
  }

  lemma LineRead(words: seq<string>)
    requires AllSound(words)
    ensures Text.Words(Text.Line(words)) == Some(words) && '\n' !in Text.Line(words) && Text.NUL !in Text.Line(words)
  {
    LineNoEnd(words);
    hide Text.Words, Text.Line;
    Text.LineRoundTrip(words);
  }

  lemma ActionLine(pol: Policy, a: Action, runnable: string -> bool)
    requires ActionFits(a) && |pol.actions| < MAX_ACTIONS && ActionIndex(pol.actions, a.name).None? && runnable(a.argv[0])
    ensures LineAdds(pol, Text.Line(ActionWords(a)), runnable) == Some(pol.(actions := pol.actions + [a]))
    ensures '\n' !in Text.Line(ActionWords(a)) && Text.NUL !in Text.Line(ActionWords(a))
  {
    ActionSound(a);
    TimeoutRead(a);
    ActionRead(pol, a, runnable);
    hide AllSound, ActionWords, ActionOf, Timeout, Text.Words, Text.Line;
    LineRead(ActionWords(a));
  }

  lemma RuleLine(pol: Policy, r: Rule, runnable: string -> bool)
    requires ActionsFit(pol.actions) && RuleFits(r, |pol.actions|) && |pol.rules| < MAX_RULES && !Taken(pol.rules, r.name)
    ensures LineAdds(pol, Text.Line(RuleWords(pol.actions, r)), runnable) == Some(pol.(rules := pol.rules + [r]))
    ensures '\n' !in Text.Line(RuleWords(pol.actions, r)) && Text.NUL !in Text.Line(RuleWords(pol.actions, r))
  {
    RuleSound(pol.actions, r);
    RuleShape(pol.actions, r);
    RuleRead(pol, r);
    hide AllSound, RuleWords, RuleOf, ActionsFit, RuleFits, Text.Words, Text.Line, Taken;
    LineRead(RuleWords(pol.actions, r));
  }

  // ----- Texts -----

  /** Actions first, then rules. */
  function ItemLine(pol: Policy, i: nat): string
    requires i < |pol.actions| + |pol.rules|
  {
    Text.Line(if i < |pol.actions| then ActionWords(pol.actions[i]) else RuleWords(pol.actions, pol.rules[i - |pol.actions|]))
  }

  function PrintFrom(pol: Policy, i: nat): string
    requires i <= |pol.actions| + |pol.rules|
    decreases |pol.actions| + |pol.rules| - i
  {
    if i == |pol.actions| + |pol.rules| then [] else ItemLine(pol, i) + ['\n'] + PrintFrom(pol, i + 1)
  }

  /** The text of a policy. */
  function Print(pol: Policy): string { PrintFrom(pol, 0) }

  /** What has been read after i lines. */
  function Prefix(pol: Policy, i: nat): Policy
    requires i <= |pol.actions| + |pol.rules|
  {
    if i <= |pol.actions| then Policy(pol.actions[..i], []) else Policy(pol.actions, pol.rules[..i - |pol.actions|])
  }

  /** A policy the parser could have produced, its arguments fit for a line and its programs runnable. */
  ghost predicate Printable(pol: Policy, runnable: string -> bool) {
    && PolicyOk(pol)
    && (forall i :: 0 <= i < |pol.actions| ==> ActionFits(pol.actions[i]) && runnable(pol.actions[i].argv[0]))
    && (forall i :: 0 <= i < |pol.rules| ==> RuleFits(pol.rules[i], |pol.actions|))
  }

  lemma ParsedLine(line: string, rest: string, n: nat, pol: Policy, pol': Policy, runnable: string -> bool)
    requires '\n' !in line && LineAdds(pol, line, runnable) == Some(pol')
    ensures Parsed(line + ['\n'] + rest, n, pol, runnable) == Parsed(rest, n + 1, pol', runnable)
  {
    hide LineAdds;
    var text := line + ['\n'] + rest;
    UptoFirst(line, '\n', rest);
    assert text[..|line|] == line && text[|line| + 1..] == rest;
  }

  lemma ItemRead(pol: Policy, i: nat, runnable: string -> bool)
    requires Printable(pol, runnable) && i < |pol.actions| + |pol.rules|
    ensures LineAdds(Prefix(pol, i), ItemLine(pol, i), runnable) == Some(Prefix(pol, i + 1))
    ensures '\n' !in ItemLine(pol, i) && Text.NUL !in ItemLine(pol, i)
  {
    hide ActionOk, RuleOk, RuleFits, ActionFits, LineAdds, ActionWords, RuleWords, Text.Line, ValidName;
    var n, p := |pol.actions|, Prefix(pol, i);
    if i < n {
      ActionFitsIs(pol.actions[i]);
      ActionLine(p, pol.actions[i], runnable);
      assert pol.actions[..i] + [pol.actions[i]] == pol.actions[..i + 1];
    } else {
      FitNames(pol);
      assert p.actions == pol.actions && p.rules == pol.rules[..i - n];
      RuleLine(p, pol.rules[i - n], runnable);
      assert pol.rules[..i - n] + [pol.rules[i - n]] == pol.rules[..i - n + 1];
      assert pol.actions[..n] == pol.actions;
    }
  }

  lemma ActionFitsIs(a: Action)
    requires ActionFits(a)
    ensures a.argv != []
  {
  }

  lemma FitNames(pol: Policy)
    requires PolicyOk(pol)
    ensures ActionsFit(pol.actions)
  {
    hide RuleOk, ValidName;
  }

  lemma {:induction false} RoundTripFrom(pol: Policy, i: nat, runnable: string -> bool)
    requires Printable(pol, runnable) && i <= |pol.actions| + |pol.rules|
    ensures Parsed(PrintFrom(pol, i), i, Prefix(pol, i), runnable) == (0, pol) && Text.NUL !in PrintFrom(pol, i)
    decreases |pol.actions| + |pol.rules| - i
  {
    hide Printable, LineAdds, ItemLine;
    if i < |pol.actions| + |pol.rules| {
      ItemRead(pol, i, runnable);
      RoundTripFrom(pol, i + 1, runnable);
      hide Prefix, Parsed;
      ParsedLine(ItemLine(pol, i), PrintFrom(pol, i + 1), i, Prefix(pol, i), Prefix(pol, i + 1), runnable);
    } else {
      assert pol.rules[..|pol.rules|] == pol.rules && pol.actions[..|pol.actions|] == pol.actions;
      assert |pol.rules| == 0 ==> pol.rules == [];
    }
  }

  /** Every policy is read back from its text. */
  lemma RoundTrip(pol: Policy, runnable: string -> bool)
    requires Printable(pol, runnable)
    ensures Parsed(Print(pol), 0, Policy([], []), runnable) == (0, pol) && Text.NUL !in Print(pol)
  {
    hide Printable, Parsed;
    RoundTripFrom(pol, 0, runnable);
    assert pol.actions[..0] == [];
  }
}

/** The policy parser, from text to the rules the escalation engine runs on. */
module PolicyParse {
  import opened Options
  import opened Incidents
  import Text = PolicyText

  const MAX_ACTIONS := 16
  const MAX_RULES := 32
  const MAX_CODES := 16
  const MAX_ARGS := 16
  const NAME_LEN := 32
  const DAY := 86400

  datatype Action = Action(name: string, argv: seq<string>, timeout: nat)
  datatype Policy = Policy(actions: seq<Action>, rules: seq<Rule>)

  // ----- Characters, numbers, names -----

  predicate Digit(c: char) { '0' <= c <= '9' }

  predicate NameChar(c: char) {
    Digit(c) || 'a' <= c <= 'z' || 'A' <= c <= 'Z' || c == '_' || c == '-' || c == '.'
  }

  predicate ValidName(s: string) {
    0 < |s| < NAME_LEN && forall c :: c in s ==> NameChar(c)
  }

  function Lower(c: char): char {
    if 'A' <= c <= 'Z' then (c as int + 32) as char else c
  }

  predicate SameFold(a: string, b: string) {
    |a| == |b| && forall i :: 0 <= i < |a| ==> Lower(a[i]) == Lower(b[i])
  }

  predicate Space(c: char) {
    c == ' ' || 9 <= c as int <= 13
  }

  function SkipSpace(s: string): string {
    if s != [] && Space(s[0]) then SkipSpace(s[1..]) else s
  }

  function DigitOf(c: char): nat {
    if Digit(c) then c as int - 48
    else if 'a' <= c <= 'f' then c as int - 87
    else if 'A' <= c <= 'F' then c as int - 55
    else 99
  }

  /** The number the digits spell in base ten or sixteen, if they are all digits of it. */
  function Value(s: string, radix: nat): Option<nat> {
    if s == [] then Some(0)
    else
      var n, v := |s| - 1, Value(s[..|s| - 1], radix);
      if v.None? || DigitOf(s[n]) >= radix then None
      else Some((if radix == 16 then v.value * 16 else v.value * 10) + DigitOf(s[n]))
  }

  /** strtoul over the whole string: blanks, a sign, digits; too large is an error, a minus wraps around. */
  function Unsigned(s: string, radix: nat): Option<nat> {
    var t := SkipSpace(s);
    var minus := t != [] && t[0] == '-';
    var d := if t != [] && (t[0] == '-' || t[0] == '+') then t[1..] else t;
    var v := if d == [] then None else Value(d, radix);
    if v.None? || v.value >= U64 then None
    else Some(if minus then (U64 - v.value) % U64 else v.value)
  }

  function Bounded(s: string, lo: nat, hi: nat): (r: Option<nat>)
    ensures r.Some? ==> lo <= r.value <= hi
  {
    if s == [] || s[0] == '-' then None
    else
      var v := Unsigned(s, 10);
      if v.None? || v.value < lo || v.value > hi then None else v
  }

  const CODES: seq<(string, nat)> := [
    ("PMU_L1D_ANOMALY", 0x01), ("PMU_L2_ANOMALY", 0x02), ("PMU_RDTSC_RATE", 0x03),
    ("UNAUTHORIZED_KBD_FILTER", 0x10), ("UNAUTHORIZED_DMA", 0x11), ("PCI_DISCREPANCY", 0x12),
    ("KBD_FILTER_NEUTRALIZED", 0x13), ("DMA_BLOCKED_IOMMU", 0x14), ("DEVICE_BME_DISABLED", 0x15),
    ("IDT_HOOK", 0x20), ("DISPATCH_HOOK", 0x21), ("TEXT_PATCH", 0x22), ("CTRL_REG_TAMPER", 0x23),
    ("MODULE_LOADED", 0x24), ("VULN_DRIVER", 0x25), ("DRIVER_BLOCKED", 0x26), ("LOAD_POLICY", 0x27),
    ("SHARED_STATE_CORRUPT", 0x30), ("FAIL_SAFE_ENTERED", 0x31), ("POSTURE_CHANGED", 0x32),
    ("FORGED", 0x10001), ("OVERRUN", 0x10002), ("TAMPER", 0x10003)]

  const LEVELS: seq<(string, nat)> := [("info", 0), ("warning", 1), ("critical", 2), ("forged", 3)]

  /** The first entry of a table with the name, letters compared without case. */
  function Named(table: seq<(string, nat)>, name: string): Option<nat> {
    if table == [] then None
    else if SameFold(table[0].0, name) then Some(table[0].1)
    else Named(table[1..], name)
  }

  function CodeFromName(name: string): Option<nat> {
    var known := Named(CODES, name);
    if known.Some? then known
    else if |name| > 2 && name[0] == '0' && (name[1] == 'x' || name[1] == 'X') then
      var v := Value(name[2..], 16);
      if v.Some? && v.value <= 0xffff then v else None
    else None
  }

  // ----- Lists -----

  /** The part up to a separator, and what follows it. */
  function Upto(s: string, sep: char): nat {
    if s == [] || s[0] == sep then 0 else 1 + Upto(s[1..], sep)
  }

  lemma {:induction false} UptoWithin(s: string, sep: char)
    ensures Upto(s, sep) <= |s| && (Upto(s, sep) < |s| ==> s[Upto(s, sep)] == sep) && sep !in s[..Upto(s, sep)]
  {
    if s != [] && s[0] != sep {
      UptoWithin(s[1..], sep);
      assert s[..Upto(s, sep)] == [s[0]] + s[1..][..Upto(s[1..], sep)];
    }
  }

  /** The non-empty parts between separators. */
  function Parts(s: string, sep: char): seq<string>
    decreases |s|
  {
    UptoWithin(s, sep);
    var n := Upto(s, sep);
    var more := if n < |s| then Parts(s[n + 1..], sep) else [];
    if n == 0 then more else [s[..n]] + more
  }

  function ActionIndex(actions: seq<Action>, name: string): (i: Option<nat>)
    ensures i.Some? ==> i.value < |actions| && actions[i.value].name == name
    ensures i.None? ==> forall j :: 0 <= j < |actions| ==> actions[j].name != name
  {
    if actions == [] then None
    else if actions[0].name == name then Some(0)
    else
      var i := ActionIndex(actions[1..], name);
      if i.None? then None else Some(i.value + 1)
  }

  function MaskOf(actions: seq<Action>, names: seq<string>): (m: Option<set<nat>>)
    ensures m.Some? ==> forall i :: i in m.value ==> i < |actions|
    ensures m.Some? && names != [] ==> m.value != {}
  {
    if names == [] then Some({})
    else
      var m, i := MaskOf(actions, names[..|names| - 1]), ActionIndex(actions, names[|names| - 1]);
      if m.None? || i.None? then None else Some(m.value + {i.value})
  }

  lemma {:induction false} IndexFound(actions: seq<Action>, i: nat)
    requires i < |actions|
    ensures ActionIndex(actions, actions[i].name).Some? && ActionIndex(actions, actions[i].name).value <= i
  {
    if actions[0].name != actions[i].name {
      IndexFound(actions[1..], i - 1);
    }
  }

  /** The mask is that of exactly the named actions, each by its first definition. */
  lemma {:induction false} MaskExactly(actions: seq<Action>, names: seq<string>, i: nat)
    requires MaskOf(actions, names).Some?
    ensures i in MaskOf(actions, names).value <==>
            i < |actions| && ActionIndex(actions, actions[i].name) == Some(i) && actions[i].name in names
  {
    if names != [] {
      var last := names[|names| - 1];
      MaskExactly(actions, names[..|names| - 1], i);
      assert names == names[..|names| - 1] + [last];
    }
  }

  /** With distinct names, as every accepted policy has them, the first definition is the only one. */
  lemma MaskOfDistinct(actions: seq<Action>, names: seq<string>, i: nat)
    requires MaskOf(actions, names).Some?
    requires forall j, k :: 0 <= j < k < |actions| ==> actions[j].name != actions[k].name
    ensures i in MaskOf(actions, names).value <==> i < |actions| && actions[i].name in names
  {
    MaskExactly(actions, names, i);
    if i < |actions| {
      IndexFound(actions, i);
    }
  }

  function ListMask(actions: seq<Action>, list: string): Option<set<nat>> {
    var m := MaskOf(actions, Parts(list, ','));
    if m.None? || m.value == {} then None else m
  }

  method ParseActionList(actions: seq<Action>, list: string) returns (m: Option<set<nat>>)
    ensures m == ListMask(actions, list)
  {
    var names := Parts(list, ',');
    var mask: set<nat> := {};
    var i := 0;
    while i < |names|
      invariant i <= |names| && MaskOf(actions, names[..i]) == Some(mask)
    {
      assert names[..i + 1][..i] == names[..i];
      var j := ActionIndex(actions, names[i]);
      if j.None? {
        MaskFails(actions, names, i + 1);
        return None;
      }
      mask := mask + {j.value};
      i := i + 1;
    }
    assert names[..i] == names;
    return if mask == {} then None else Some(mask);
  }

  lemma {:induction false} MaskFails(actions: seq<Action>, names: seq<string>, n: nat)
    requires n <= |names| && MaskOf(actions, names[..n]).None?
    ensures MaskOf(actions, names).None?
    decreases |names| - n
  {
    if n < |names| {
      assert names[..n + 1][..n] == names[..n];
      MaskFails(actions, names, n + 1);
    } else {
      assert names[..n] == names;
    }
  }

  /** alert=: the codes listed; a star, wherever it stands, means every alert. */
  function CodesOf(names: seq<string>): (r: Option<seq<nat>>)
    ensures r.Some? ==> |r.value| <= MAX_CODES
  {
    Codes(names, [])
  }

  function Codes(names: seq<string>, got: seq<nat>): (r: Option<seq<nat>>)
    requires |got| <= MAX_CODES
    ensures r.Some? ==> |r.value| <= MAX_CODES
    decreases |names|
  {
    if names == [] then Some(got)
    else if names[0] == "*" then Some([])
    else if |got| >= MAX_CODES || CodeFromName(names[0]).None? then None
    else Codes(names[1..], got + [CodeFromName(names[0]).value])
  }

  method ParseCodes(names: seq<string>) returns (r: Option<seq<nat>>)
    ensures r == CodesOf(names)
  {
    var got: seq<nat> := [];
    var i := 0;
    assert names[0..] == names;
    while i < |names|
      invariant i <= |names| && |got| <= MAX_CODES && CodesOf(names) == Codes(names[i..], got)
    {
      assert names[i..][1..] == names[i + 1..];
      if names[i] == "*" {
        return Some([]);
      }
      if |got| >= MAX_CODES {
        return None;
      }
      var c := CodeFromName(names[i]);
      if c.None? {
        return None;
      }
      got := got + [c.value];
      i := i + 1;
    }
    return Some(got);
  }

  // ----- Rules -----

  /** A rule while its options are read. */
  datatype Draft = Draft(rule: Rule, haveDo: bool, list: Option<string>)

  function FreshRule(name: string): Rule {
    Rule(name, [], 0, 60, {}, 0, 0, 0, {}, 3600)
  }

  function Set<T>(v: Option<T>, f: T -> Draft): Option<Draft> {
    if v.None? then None else Some(f(v.value))
  }

  /** repeat=N/SEC */
  function RepeatOf(v: string): (r: Option<(nat, nat)>)
    ensures r.Some? ==> 2 <= r.value.0 <= MAX_REPEAT && 1 <= r.value.1 <= DAY
  {
    var n := Upto(v, '/');
    UptoWithin(v, '/');
    if n == |v| then None
    else
      var count, secs := Bounded(v[..n], 2, MAX_REPEAT), Bounded(v[n + 1..], 1, DAY);
      if count.None? || secs.None? then None else Some((count.value, secs.value))
  }

  /** The options that are numbers. */
  function NumberOption(d: Draft, k: string, v: string): Option<Draft> {
    var r := d.rule;
    if k == "throttle" then Set(Bounded(v, 0, DAY), n => d.(rule := r.(throttle := n)))
    else if k == "reset" then Set(Bounded(v, 1, 30 * DAY), n => d.(rule := r.(reset := n)))
    else if k == "unacked" then Set(Bounded(v, 1, 30 * DAY), n => d.(rule := r.(unacked := n)))
    else if k == "repeat" then Set(RepeatOf(v), (p: (nat, nat)) => d.(rule := r.(repeatN := p.0, window := p.1)))
    else None
  }

  /** One key=value option. */
  function Option1(actions: seq<Action>, d: Draft, k: string, v: string): Option<Draft> {
    var r := d.rule;
    if k == "alert" then Set(CodesOf(Parts(v, ',')), c => d.(rule := r.(codes := c)))
    else if k == "level" then Set(Named(LEVELS, v), l => d.(rule := r.(minLevel := l)))
    else if k == "do" then Set(ListMask(actions, v), m => d.(rule := r.(doMask := m), haveDo := true))
    else if k == "then" then Some(d.(list := Some(v)))
    else NumberOption(d, k, v)
  }

  function OptionTok(actions: seq<Action>, d: Draft, tok: string): Option<Draft> {
    var n := Upto(tok, '=');
    UptoWithin(tok, '=');
    if n == |tok| then None else Option1(actions, d, tok[..n], tok[n + 1..])
  }

  function AllOptions(actions: seq<Action>, d: Draft, toks: seq<string>): Option<Draft>
    decreases |toks|
  {
    if toks == [] then Some(d)
    else
      var d' := OptionTok(actions, d, toks[0]);
      if d'.None? then None else AllOptions(actions, d'.value, toks[1..])
  }

  function Finished(actions: seq<Action>, d: Draft): Option<Rule> {
    var r := d.rule;
    var later := if d.list.Some? then ListMask(actions, d.list.value) else Some({});
    var escalates := r.repeatN != 0 || r.unacked != 0;
    if !d.haveDo || later.None? || (d.list.Some? && !escalates) || (d.list.None? && escalates) then None
    else Some(r.(thenMask := later.value))
  }

  predicate Taken(rules: seq<Rule>, name: string) {
    exists i :: 0 <= i < |rules| && rules[i].name == name
  }

  function RuleOf(pol: Policy, tok: seq<string>): Option<Rule> {
    if |tok| < 3 || |pol.rules| >= MAX_RULES || !ValidName(tok[1]) || Taken(pol.rules, tok[1]) then None
    else
      var d := AllOptions(pol.actions, Draft(FreshRule(tok[1]), false, None), tok[2..]);
      if d.None? then None else Finished(pol.actions, d.value)
  }

  method ParseRule(pol: Policy, tok: seq<string>) returns (r: Option<Rule>)
    ensures r == RuleOf(pol, tok)
  {
    if |tok| < 3 || |pol.rules| >= MAX_RULES || !ValidName(tok[1]) {
      return None;
    }
    var i := 0;
    while i < |pol.rules|
      invariant i <= |pol.rules| && forall j :: 0 <= j < i ==> pol.rules[j].name != tok[1]
    {
      if pol.rules[i].name == tok[1] {
        return None;
      }
      i := i + 1;
    }
    var d := Draft(FreshRule(tok[1]), false, None);
    var k := 2;
    while k < |tok|
      invariant 2 <= k <= |tok|
      invariant AllOptions(pol.actions, Draft(FreshRule(tok[1]), false, None), tok[2..]) == AllOptions(pol.actions, d, tok[k..])
    {
      assert tok[k..][1..] == tok[k + 1..];
      var n := ParseOption(pol.actions, d, tok[k]);
      if n.None? {
        return None;
      }
      d := n.value;
      k := k + 1;
    }
    if !d.haveDo {
      return None;
    }
    var then_: Option<set<nat>> := Some({});
    if d.list.Some? {
      then_ := ParseActionList(pol.actions, d.list.value);
      if then_.None? {
        return None;
      }
    }
    if d.list.Some? && d.rule.repeatN == 0 && d.rule.unacked == 0 {
      return None;
    }
    if d.list.None? && (d.rule.repeatN != 0 || d.rule.unacked != 0) {
      return None;
    }
    return Some(d.rule.(thenMask := then_.value));
  }

  /** The loops inside one option. */
  method ParseOption(actions: seq<Action>, d: Draft, tok: string) returns (r: Option<Draft>)
    ensures r == OptionTok(actions, d, tok)
  {
    hide Bounded, ListMask, CodesOf, Parts, Named;
    UptoWithin(tok, '=');
    var n := Upto(tok, '=');
    if n == |tok| {
      return None;
    }
    var k, v := tok[..n], tok[n + 1..];
    if k == "alert" {
      var c := ParseCodes(Parts(v, ','));
      r := if c.None? then None else Some(d.(rule := d.rule.(codes := c.value)));
    } else if k == "do" {
      var m := ParseActionList(actions, v);
      r := if m.None? then None else Some(d.(rule := d.rule.(doMask := m.value), haveDo := true));
    } else {
      r := Option1(actions, d, k, v);
    }
  }

  // ----- Actions -----

  /** timeout= options before the program. */
  function Timeout(tok: seq<string>, i: nat, t: nat): Option<(nat, nat)>
    requires i <= |tok|
    decreases |tok| - i
  {
    if i == |tok| || (tok[i] != [] && tok[i][0] == '/') || '=' !in tok[i] then Some((i, t))
    else if |tok[i]| >= 8 && tok[i][..8] == "timeout=" then
      var v := Bounded(tok[i][8..], 1, 3600);
      if v.None? then None else Timeout(tok, i + 1, v.value)
    else None
  }

  /** `runnable` stands for the checks of the file itself. */
  function ActionOf(pol: Policy, tok: seq<string>, runnable: string -> bool): Option<Action> {
    if |tok| < 3 || |pol.actions| >= MAX_ACTIONS || !ValidName(tok[1]) || ActionIndex(pol.actions, tok[1]).Some? then None
    else
      var t := Timeout(tok, 2, 10);
      if t.None? then None
      else
        var (i, secs) := t.value;
        if i >= |tok| || |tok| - i > MAX_ARGS || !runnable(tok[i]) || tok[i] == [] || tok[i][0] != '/' then None
        else Some(Action(tok[1], tok[i..], secs))
  }

  method ParseAction(pol: Policy, tok: seq<string>, runnable: string -> bool) returns (a: Option<Action>)
    ensures a == ActionOf(pol, tok, runnable)
  {
    if |tok| < 3 || |pol.actions| >= MAX_ACTIONS || !ValidName(tok[1]) || ActionIndex(pol.actions, tok[1]).Some? {
      return None;
    }
    var i, secs := 2, 10;
    while i < |tok| && !(tok[i] != [] && tok[i][0] == '/') && '=' in tok[i]
      invariant 2 <= i <= |tok| && Timeout(tok, 2, 10) == Timeout(tok, i, secs)
    {
      if |tok[i]| < 8 || tok[i][..8] != "timeout=" {
        return None;
      }
      var v := Bounded(tok[i][8..], 1, 3600);
      if v.None? {
        return None;
      }
      secs := v.value;
      i := i + 1;
    }
    if i >= |tok| || |tok| - i > MAX_ARGS || !runnable(tok[i]) || tok[i] == [] || tok[i][0] != '/' {
      return None;
    }
    var argv: seq<string> := [];
    var j := i;
    while j < |tok|
      invariant i <= j <= |tok| && |argv| == j - i && forall m :: 0 <= m < |argv| ==> argv[m] == tok[i + m]
    {
      argv := argv + [tok[j]];
      j := j + 1;
    }
    assert argv == tok[i..];
    return Some(Action(tok[1], argv, secs));
  }

  // ----- Whole texts -----

  function LineAdds(pol: Policy, line: string, runnable: string -> bool): Option<Policy> {
    var ws := Text.Words(line);
    if ws.None? || |ws.value| > MAX_ARGS + 4 then None
    else if ws.value == [] then Some(pol)
    else if ws.value[0] == "action" then
      var a := ActionOf(pol, ws.value, runnable);
      if a.None? then None else Some(pol.(actions := pol.actions + [a.value]))
    else if ws.value[0] == "rule" then
      var r := RuleOf(pol, ws.value);
      if r.None? then None else Some(pol.(rules := pol.rules + [r.value]))
    else None
  }

  /** The number of the first line in error, or 0 and the policy. */
  function Parsed(text: string, lineno: nat, pol: Policy, runnable: string -> bool): (nat, Policy)
    decreases |text|
  {
    if text == [] then (0, pol)
    else
      UptoWithin(text, '\n');
      var n := Upto(text, '\n');
      var pol' := LineAdds(pol, text[..n], runnable);
      if pol'.None? then (lineno + 1, Policy([], []))
      else Parsed(if n < |text| then text[n + 1..] else [], lineno + 1, pol'.value, runnable)
  }

  method Parse(text: string, runnable: string -> bool) returns (line: nat, pol: Policy)
    requires Text.NUL !in text
    ensures (line, pol) == Parsed(text, 0, Policy([], []), runnable)
  {
    hide LineAdds, Upto;
    pol, line := Policy([], []), 0;
    var rest := text;
    while rest != []
      invariant Text.NUL !in rest && Parsed(text, 0, Policy([], []), runnable) == Parsed(rest, line, pol, runnable)
      decreases |rest|
    {
      UptoWithin(rest, '\n');
      var n := Upto(rest, '\n');
      var next := ParseLine(pol, rest[..n], runnable);
      line := line + 1;
      if next.None? {
        return line, Policy([], []);
      }
      pol := next.value;
      rest := if n < |rest| then rest[n + 1..] else [];
    }
    line := 0;
  }

  method ParseLine(pol: Policy, line: string, runnable: string -> bool) returns (r: Option<Policy>)
    requires Text.NUL !in line
    ensures r == LineAdds(pol, line, runnable)
  {
    hide RuleOf, ActionOf;
    var a := new char[|line| + 1](i requires 0 <= i <= |line| => if i < |line| then line[i] else Text.NUL);
    assert a[..][0..] == line[0..] + [Text.NUL];
    var n, starts := Text.Tokenize(a, MAX_ARGS + 4, line);
    if n < 0 {
      return None;
    }
    var buffer := a[..];
    var tok := seq(n, i requires 0 <= i < n => Text.CStr(buffer, starts[i]));
    assert tok == Text.Words(line).value;
    if n == 0 {
      return Some(pol);
    }
    if tok[0] == "action" {
      var x := ParseAction(pol, tok, runnable);
      return if x.None? then None else Some(pol.(actions := pol.actions + [x.value]));
    } else if tok[0] == "rule" {
      var x := ParseRule(pol, tok);
      return if x.None? then None else Some(pol.(rules := pol.rules + [x.value]));
    }
    return None;
  }

  // ----- What an accepted text is worth -----

  ghost predicate Within(m: set<nat>, n: nat) {
    forall i :: i in m ==> i < n
  }

  predicate KnownCode(c: nat) {
    c <= 0xffff || c in {0x10001, 0x10002, 0x10003}
  }

  /** The ranges of a rule's numbers, finished or not. */
  ghost predicate InRange(r: Rule, nactions: nat) {
    && Within(r.doMask, nactions) && |r.codes| <= MAX_CODES && (forall c :: c in r.codes ==> KnownCode(c))
    && 0 <= r.minLevel <= 3 && r.throttle <= DAY && 1 <= r.reset <= 30 * DAY && r.unacked <= 30 * DAY
    && (r.repeatN == 0 || (2 <= r.repeatN <= MAX_REPEAT && 1 <= r.window <= DAY))
  }

  /** What the engine relies on. */
  ghost predicate RuleOk(r: Rule, nactions: nat) {
    && InRange(r, nactions) && ValidName(r.name)
    && r.doMask != {} && Within(r.thenMask, nactions)
    && (r.thenMask != {} <==> r.repeatN != 0 || r.unacked != 0)
  }

  ghost predicate ActionOk(a: Action) {
    ValidName(a.name) && 1 <= |a.argv| <= MAX_ARGS && a.argv[0] != [] && a.argv[0][0] == '/' && 1 <= a.timeout <= 3600
  }

  ghost predicate PolicyOk(pol: Policy) {
    && |pol.actions| <= MAX_ACTIONS && |pol.rules| <= MAX_RULES
    && (forall i :: 0 <= i < |pol.actions| ==> ActionOk(pol.actions[i]))
    && (forall i, j :: 0 <= i < j < |pol.actions| ==> pol.actions[i].name != pol.actions[j].name)
    && (forall i :: 0 <= i < |pol.rules| ==> RuleOk(pol.rules[i], |pol.actions|))
    && (forall i, j :: 0 <= i < j < |pol.rules| ==> pol.rules[i].name != pol.rules[j].name)
  }

  ghost predicate DraftOk(d: Draft, name: string, nactions: nat) {
    InRange(d.rule, nactions) && d.rule.name == name && (d.haveDo ==> d.rule.doMask != {}) && d.rule.thenMask == {}
  }

  lemma {:induction false} NamedIn(table: seq<(string, nat)>, name: string)
    ensures Named(table, name).Some? ==> exists i :: 0 <= i < |table| && table[i].1 == Named(table, name).value
  {
    if table != [] && !SameFold(table[0].0, name) {
      NamedIn(table[1..], name);
      if Named(table[1..], name).Some? {
        var i :| 0 <= i < |table[1..]| && table[1..][i].1 == Named(table[1..], name).value;
        assert table[i + 1].1 == Named(table, name).value;
      }
    }
  }

  lemma CodeKnown(name: string)
    ensures CodeFromName(name).Some? ==> KnownCode(CodeFromName(name).value)
  {
    NamedIn(CODES, name);
    CodesKnown();
  }

  lemma CodesKnown()
    ensures forall i :: 0 <= i < |CODES| ==> KnownCode(CODES[i].1)
  {
  }

  lemma {:induction false} CodesAreKnown(names: seq<string>, got: seq<nat>)
    requires |got| <= MAX_CODES && forall c :: c in got ==> KnownCode(c)
    ensures Codes(names, got).Some? ==> forall c :: c in Codes(names, got).value ==> KnownCode(c)
    decreases |names|
  {
    hide CodeFromName, KnownCode;
    if names != [] && names[0] != "*" && |got| < MAX_CODES && CodeFromName(names[0]).Some? {
      CodeKnown(names[0]);
      CodesAreKnown(names[1..], got + [CodeFromName(names[0]).value]);
    }
  }

  lemma LevelKnown(v: string)
    ensures Named(LEVELS, v).Some? ==> Named(LEVELS, v).value <= 3
  {
    NamedIn(LEVELS, v);
  }

  lemma NumberKeeps(d: Draft, k: string, v: string, name: string, n: nat)
    requires DraftOk(d, name, n)
    ensures var d' := NumberOption(d, k, v); d'.Some? ==> DraftOk(d'.value, name, n)
  {
    hide KnownCode, Bounded, RepeatOf;
  }

  lemma CodesListed(names: seq<string>)
    ensures CodesOf(names).Some? ==> |CodesOf(names).value| <= MAX_CODES && forall c :: c in CodesOf(names).value ==> KnownCode(c)
  {
    CodesAreKnown(names, []);
  }

  lemma MaskListed(actions: seq<Action>, list: string)
    ensures ListMask(actions, list).Some? ==> ListMask(actions, list).value != {} && Within(ListMask(actions, list).value, |actions|)
  {
  }

  lemma OptionKeeps(actions: seq<Action>, d: Draft, k: string, v: string, name: string)
    requires DraftOk(d, name, |actions|)
    ensures var d' := Option1(actions, d, k, v); d'.Some? ==> DraftOk(d'.value, name, |actions|)
  {
    hide CodesOf, Named, KnownCode, Parts, ListMask, NumberOption;
    CodesListed(Parts(v, ','));
    LevelKnown(v);
    MaskListed(actions, v);
    NumberKeeps(d, k, v, name, |actions|);
  }

  lemma {:induction false} OptionsKeep(actions: seq<Action>, d: Draft, toks: seq<string>, name: string)
    requires DraftOk(d, name, |actions|)
    ensures var d' := AllOptions(actions, d, toks); d'.Some? ==> DraftOk(d'.value, name, |actions|)
    decreases |toks|
  {
    hide DraftOk, Option1;
    if toks != [] {
      UptoWithin(toks[0], '=');
      var n := Upto(toks[0], '=');
      if n < |toks[0]| {
        OptionKeeps(actions, d, toks[0][..n], toks[0][n + 1..], name);
      }
      var d' := OptionTok(actions, d, toks[0]);
      if d'.Some? {
        OptionsKeep(actions, d'.value, toks[1..], name);
      }
    }
  }

  lemma RuleIsOk(pol: Policy, tok: seq<string>)
    ensures var r := RuleOf(pol, tok);
            r.Some? ==> RuleOk(r.value, |pol.actions|) && r.value.name == tok[1] && !Taken(pol.rules, r.value.name)
  {
    if RuleOf(pol, tok).Some? {
      OptionsKeep(pol.actions, Draft(FreshRule(tok[1]), false, None), tok[2..], tok[1]);
      hide AllOptions, MaskOf, ValidName, KnownCode, Parts;
    }
  }

  lemma {:induction false} TimeoutInRange(tok: seq<string>, i: nat, t: nat)
    requires i <= |tok| && 1 <= t <= 3600
    ensures Timeout(tok, i, t).Some? ==> i <= Timeout(tok, i, t).value.0 <= |tok| && 1 <= Timeout(tok, i, t).value.1 <= 3600
    decreases |tok| - i
  {
    hide Bounded;
    if i < |tok| && |tok[i]| >= 8 && tok[i][..8] == "timeout=" && Bounded(tok[i][8..], 1, 3600).Some? {
      BoundedIs(tok[i][8..], 1, 3600);
      TimeoutInRange(tok, i + 1, Bounded(tok[i][8..], 1, 3600).value);
    }
  }

  lemma BoundedIs(s: string, lo: nat, hi: nat)
    ensures Bounded(s, lo, hi).Some? ==> lo <= Bounded(s, lo, hi).value <= hi
  {
  }

  lemma ActionIsOk(pol: Policy, tok: seq<string>, runnable: string -> bool)
    ensures var a := ActionOf(pol, tok, runnable);
            a.Some? ==> ActionOk(a.value) && ActionIndex(pol.actions, a.value.name).None?
  {
    if ActionOf(pol, tok, runnable).Some? {
      TimeoutInRange(tok, 2, 10);
      hide Timeout, ValidName;
    }
  }

  lemma MoreActions(r: Rule, n: nat)
    requires RuleOk(r, n)
    ensures RuleOk(r, n + 1)
  {
    hide ValidName, KnownCode;
  }

  lemma LineKeepsOk(pol: Policy, line: string, runnable: string -> bool)
    requires PolicyOk(pol)
    ensures var p := LineAdds(pol, line, runnable); p.Some? ==> PolicyOk(p.value)
  {
    var ws := Text.Words(line);
    if LineAdds(pol, line, runnable).Some? && ws.value != [] {
      ActionIsOk(pol, ws.value, runnable);
      RuleIsOk(pol, ws.value);
      hide RuleOk, ActionOk;
      if ws.value[0] == "action" {
        forall i | 0 <= i < |pol.rules|
          ensures RuleOk(pol.rules[i], |pol.actions| + 1)
        {
          MoreActions(pol.rules[i], |pol.actions|);
        }
      }
    }
  }

  /** Every accepted text gives the engine what it relies on; a rejected one leaves nothing behind. */
  lemma {:induction false} ParsedIsOk(text: string, lineno: nat, pol: Policy, runnable: string -> bool)
    requires PolicyOk(pol)
    ensures PolicyOk(Parsed(text, lineno, pol, runnable).1)
    ensures Parsed(text, lineno, pol, runnable).0 != 0 ==> Parsed(text, lineno, pol, runnable).1 == Policy([], [])
    decreases |text|
  {
    hide PolicyOk, LineAdds;
    if text != [] {
      UptoWithin(text, '\n');
      var n := Upto(text, '\n');
      LineKeepsOk(pol, text[..n], runnable);
      var p := LineAdds(pol, text[..n], runnable);
      if p.Some? {
        ParsedIsOk(if n < |text| then text[n + 1..] else [], lineno + 1, p.value, runnable);
      } else {
        NothingIsOk();
      }
    }
  }

  lemma NothingIsOk()
    ensures PolicyOk(Policy([], []))
  {
  }
}

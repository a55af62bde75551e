/**
 Policies written out as text, every option that has its default value left out, and read back: names of alerts and
 levels, numbers, lists, defaults and the order of the fields are what the parser takes them for.
 */
module PolicyPrint {
  import opened Options
  import opened Incidents
  import opened PolicyParse
  import Text = PolicyText

  // ----- Numbers -----

  function DigitChar(d: nat): char
    requires d < 16
  {
    if d < 10 then ('0' as int + d) as char else ('a' as int + d - 10) as char
  }

  function Spelled(n: nat, radix: nat): (s: string)
    requires radix == 10 || radix == 16
    ensures s != [] && forall i :: 0 <= i < |s| ==> Digit(s[i]) || 'a' <= s[i] <= 'f'
  {
    if n < radix then [DigitChar(n)] else Spelled(n / radix, radix) + [DigitChar(n % radix)]
  }

  lemma DigitRead(d: nat)
    requires d < 16
    ensures DigitOf(DigitChar(d)) == d && (d < 10 ==> Digit(DigitChar(d)))
  {
  }

  lemma ValueNext(s: string, radix: nat, v: nat, d: nat)
    requires d < radix && (radix == 10 || radix == 16) && Value(s, radix) == Some(v)
    ensures Value(s + [DigitChar(d)], radix) == Some(v * radix + d)
  {
    DigitRead(d);
    hide DigitChar, DigitOf;
    assert (s + [DigitChar(d)])[..|s|] == s;
  }

  lemma {:induction false} SpelledValue(n: nat, radix: nat)
    requires radix == 10 || radix == 16
    ensures Value(Spelled(n, radix), radix) == Some(n)
    ensures radix == 10 ==> forall i :: 0 <= i < |Spelled(n, radix)| ==> Digit(Spelled(n, radix)[i])
  {
    hide DigitChar;
    if n < radix {
      DigitRead(n);
      ValueNext([], radix, 0, n);
      assert [] + [DigitChar(n)] == [DigitChar(n)];
    } else {
      SpelledValue(n / radix, radix);
      hide Value;
      DigitRead(n % radix);
      ValueNext(Spelled(n / radix, radix), radix, n / radix, n % radix);
    }
  }

  lemma NumberRead(n: nat, lo: nat, hi: nat)
    requires lo <= n <= hi < U64
    ensures Bounded(Spelled(n, 10), lo, hi) == Some(n)
  {
    hide Value, Spelled;
    SpelledValue(n, 10);
    DigitsRead(Spelled(n, 10), n);
  }

  lemma DigitsRead(s: string, n: nat)
    requires s != [] && Digit(s[0]) && Value(s, 10) == Some(n) && n < U64
    ensures Unsigned(s, 10) == Some(n) && s[0] != '-'
  {
    hide Value;
    assert SkipSpace(s) == s;
  }

  // ----- Names of alerts and levels -----

  /** The name of an alert code; codes without one are written in hexadecimal. */
  function NameOf(code: nat): string {
    match code
    case 0x01 => "PMU_L1D_ANOMALY"
    case 0x02 => "PMU_L2_ANOMALY"
    case 0x03 => "PMU_RDTSC_RATE"
    case 0x10 => "UNAUTHORIZED_KBD_FILTER"
    case 0x11 => "UNAUTHORIZED_DMA"
    case 0x12 => "PCI_DISCREPANCY"
    case 0x13 => "KBD_FILTER_NEUTRALIZED"
    case 0x14 => "DMA_BLOCKED_IOMMU"
    case 0x15 => "DEVICE_BME_DISABLED"
    case 0x20 => "IDT_HOOK"
    case 0x21 => "DISPATCH_HOOK"
    case 0x22 => "TEXT_PATCH"
    case 0x23 => "CTRL_REG_TAMPER"
    case 0x24 => "MODULE_LOADED"
    case 0x25 => "VULN_DRIVER"
    case 0x26 => "DRIVER_BLOCKED"
    case 0x27 => "LOAD_POLICY"
    case 0x30 => "SHARED_STATE_CORRUPT"
    case 0x31 => "FAIL_SAFE_ENTERED"
    case 0x32 => "POSTURE_CHANGED"
    case 0x10001 => "FORGED"
    case 0x10002 => "OVERRUN"
    case 0x10003 => "TAMPER"
    case _ => "0x" + Spelled(code, 16)
  }

  /** The place of a name in the parser's table, told from its length and two letters. */
  function Place(s: string): nat {
    if |s| < 5 then 99
    else
      var a, b := Lower(s[1]), Lower(s[4]);
      match |s|
      case 6 => if a == 'o' then 20 else 22
      case 7 => 21
      case 8 => 9
      case 10 => 11
      case 11 => if a == 'u' then 14 else 16
      case 13 => if a == 'i' then 10 else 13
      case 14 => if a == 'r' then 15 else if b == 'l' then 1 else 2
      case 15 => if a == 'm' then 0 else if a == 'c' then 5 else if a == 't' then 12 else 19
      case 16 => 4
      case 17 => if a == 'm' then 7 else 18
      case 19 => 8
      case 20 => 17
      case 22 => 6
      case 23 => 3
      case _ => 99
  }

  lemma PlaceSame(a: string, b: string)
    requires SameFold(a, b)
    ensures Place(a) == Place(b)
  {
  }

  lemma PlaceIs(i: nat)
    requires i < |CODES|
    ensures |CODES| == 23 && Place(CODES[i].0) == i
  {
  }

  lemma {:induction false} NamedAt(table: seq<(string, nat)>, i: nat)
    requires i < |table| && forall j :: 0 <= j < i ==> !SameFold(table[j].0, table[i].0)
    ensures Named(table, table[i].0) == Some(table[i].1)
  {
    if i > 0 {
      assert table[1..][i - 1] == table[i];
      NamedAt(table[1..], i - 1);
    } else {
      assert SameFold(table[0].0, table[0].0);
    }
  }

  lemma {:induction false} NamedNowhere(table: seq<(string, nat)>, name: string)
    requires forall j :: 0 <= j < |table| ==> !SameFold(table[j].0, name)
    ensures Named(table, name) == None
  {
    if table != [] {
      NamedNowhere(table[1..], name);
    }
  }

  /** The entry at place i is found by its name. */
  lemma EntryRead(i: nat, code: nat)
    requires i < |CODES| && CODES[i] == (NameOf(code), code)
    ensures CodeFromName(NameOf(code)) == Some(code)
  {
    hide Place, NameOf;
    forall j | 0 <= j < i
      ensures !SameFold(CODES[j].0, CODES[i].0)
    {
      PlaceIs(i);
      PlaceIs(j);
      if SameFold(CODES[j].0, CODES[i].0) {
        PlaceSame(CODES[j].0, CODES[i].0);
      }
    }
    NamedAt(CODES, i);
  }

  lemma LetterFirst(i: nat)
    requires i < |CODES|
    ensures CODES[i].0 != [] && 'A' <= CODES[i].0[0] <= 'Z'
  {
  }

  lemma HexRead(code: nat)
    requires code <= 0xffff
    ensures CodeFromName("0x" + Spelled(code, 16)) == Some(code)
  {
    var name := "0x" + Spelled(code, 16);
    assert name[0] == '0' && name[1] == 'x' && name[2..] == Spelled(code, 16);
    forall i | 0 <= i < |CODES|
      ensures !SameFold(CODES[i].0, name)
    {
      LetterFirst(i);
    }
    hide Named;
    NamedNowhere(CODES, name);
    SpelledValue(code, 16);
  }

  /** Every code the parser knows is read back from its name. */
  lemma CodeRead(code: nat)
    requires KnownCode(code)
    ensures CodeFromName(NameOf(code)) == Some(code)
  {
    hide CodeFromName;
    if code < 0x20 {
      LowCodeRead(code);
    } else if code < 0x28 {
      MiddleCodeRead(code);
    } else {
      HighCodeRead(code);
    }
  }

  lemma LowCodeRead(code: nat)
    requires code < 0x20
    ensures CodeFromName(NameOf(code)) == Some(code)
  {
    hide CodeFromName;
    match code
    case 0x01 => EntryRead(0, code);
    case 0x02 => EntryRead(1, code);
    case 0x03 => EntryRead(2, code);
    case 0x10 => EntryRead(3, code);
    case 0x11 => EntryRead(4, code);
    case 0x12 => EntryRead(5, code);
    case 0x13 => EntryRead(6, code);
    case 0x14 => EntryRead(7, code);
    case 0x15 => EntryRead(8, code);
    case _ => HexRead(code);
  }

  lemma MiddleCodeRead(code: nat)
    requires 0x20 <= code < 0x28
    ensures CodeFromName(NameOf(code)) == Some(code)
  {
    hide CodeFromName;
    match code
    case 0x20 => EntryRead(9, code);
    case 0x21 => EntryRead(10, code);
    case 0x22 => EntryRead(11, code);
    case 0x23 => EntryRead(12, code);
    case 0x24 => EntryRead(13, code);
    case 0x25 => EntryRead(14, code);
    case 0x26 => EntryRead(15, code);
    case _ => EntryRead(16, code);
  }

  lemma HighCodeRead(code: nat)
    requires 0x28 <= code && KnownCode(code)
    ensures CodeFromName(NameOf(code)) == Some(code)
  {
    hide CodeFromName;
    match code
    case 0x30 => EntryRead(17, code);
    case 0x31 => EntryRead(18, code);
    case 0x32 => EntryRead(19, code);
    case 0x10001 => EntryRead(20, code);
    case 0x10002 => EntryRead(21, code);
    case 0x10003 => EntryRead(22, code);
    case _ => HexRead(code);
  }

  function LevelName(level: int): string {
    if level == 0 then "info" else if level == 1 then "warning" else if level == 2 then "critical" else "forged"
  }

  lemma LevelRead(level: int)
    requires 0 <= level <= 3
    ensures Named(LEVELS, LevelName(level)) == Some(level)
  {
    LevelsApart();
    hide SameFold;
    var i: nat := level;
    assert LEVELS[i] == (LevelName(level), i);
    NamedAt(LEVELS, i);
  }

  lemma LevelsApart()
    ensures forall i, j :: 0 <= i < j < 4 ==> !SameFold(LEVELS[i].0, LEVELS[j].0)
  {
    assert |LEVELS[0].0| == 4 && |LEVELS[1].0| == 7 && |LEVELS[2].0| == 8 && |LEVELS[3].0| == 6;
  }

  // ----- Characters that survive -----

  /** Safe in a list inside an option: no comma, no line end, no backslash. */
  predicate Plain(s: string) {
    s != [] && forall i :: 0 <= i < |s| ==> s[i] != ',' && s[i] != '\n' && s[i] != '\\' && s[i] != Text.NUL
  }

  /** Safe in a line: read back from quotes, and no line end. */
  predicate Sound(w: string) {
    Text.Quotable(w) && '\n' !in w && Text.NUL !in w
  }

  lemma NamePlain(s: string)
    requires ValidName(s)
    ensures Plain(s) && s != "*"
  {
    assert s[0] in s && NameChar(s[0]);
    forall i | 0 <= i < |s|
      ensures NameChar(s[i])
    {
      assert s[i] in s;
    }
  }

  lemma CodePlain(code: nat)
    ensures Plain(NameOf(code)) && NameOf(code) != "*"
  {
    if code < 0x10 {
      CacheCodePlain(code);
    } else if code < 0x12 {
      KeyboardCodePlain(code);
    } else if code < 0x14 {
      BusCodePlain(code);
    } else if code < 0x20 {
      DeviceCodePlain(code);
    } else if code < 0x24 {
      HookCodePlain(code);
    } else if code < 0x28 {
      LoadCodePlain(code);
    } else if code < 0x40 {
      StateCodePlain(code);
    } else {
      MonitorCodePlain(code);
    }
  }

  lemma CacheCodePlain(code: nat)
    requires code < 0x10
    ensures Plain(NameOf(code)) && NameOf(code) != "*"
  {
    hide Spelled;
  }

  lemma KeyboardCodePlain(code: nat)
    requires 0x10 <= code < 0x12
    ensures Plain(NameOf(code)) && NameOf(code) != "*"
  {
    hide Spelled;
  }

  lemma BusCodePlain(code: nat)
    requires 0x12 <= code < 0x14
    ensures Plain(NameOf(code)) && NameOf(code) != "*"
  {
    hide Spelled;
  }

  lemma DeviceCodePlain(code: nat)
    requires 0x14 <= code < 0x20
    ensures Plain(NameOf(code)) && NameOf(code) != "*"
  {
    hide Spelled;
  }

  lemma HookCodePlain(code: nat)
    requires 0x20 <= code < 0x24
    ensures Plain(NameOf(code)) && NameOf(code) != "*"
  {
    hide Spelled;
  }

  lemma LoadCodePlain(code: nat)
    requires 0x24 <= code < 0x28
    ensures Plain(NameOf(code)) && NameOf(code) != "*"
  {
    hide Spelled;
  }

  lemma StateCodePlain(code: nat)
    requires 0x28 <= code < 0x40
    ensures Plain(NameOf(code)) && NameOf(code) != "*"
  {
    hide Spelled;
  }

  lemma MonitorCodePlain(code: nat)
    requires 0x40 <= code
    ensures Plain(NameOf(code)) && NameOf(code) != "*"
  {
    hide Spelled;
  }

  // ----- Lists -----

  function Commas(list: seq<string>): string {
    if list == [] then [] else if |list| == 1 then list[0] else list[0] + "," + Commas(list[1..])
  }

  lemma {:induction false} UptoFirst(a: string, sep: char, rest: string)
    requires sep !in a
    ensures Upto(a + [sep] + rest, sep) == |a| && Upto(a, sep) == |a|
  {
    if a == [] {
      assert a + [sep] + rest == [sep] + rest;
    } else {
      assert a == [a[0]] + a[1..];
      UptoFirst(a[1..], sep, rest);
      assert (a + [sep] + rest)[1..] == a[1..] + [sep] + rest;
    }
  }

  lemma PlainNoComma(s: string)
    requires Plain(s)
    ensures ',' !in s
  {
  }

  lemma {:induction false} PartsBack(list: seq<string>)
    requires forall i :: 0 <= i < |list| ==> Plain(list[i])
    ensures Parts(Commas(list), ',') == list
    decreases |list|
  {
    if list != [] {
      var x, s := list[0], Commas(list);
      PlainNoComma(x);
      hide Plain;
      assert x != [] by { assert Plain(x); NotEmpty(x); }
      assert list == [x] + list[1..];
      if |list| == 1 {
        UptoFirst(x, ',', []);
        assert s[..|x|] == x;
      } else {
        var rest := Commas(list[1..]);
        UptoFirst(x, ',', rest);
        assert s == x + [','] + rest && s[..|x|] == x && s[|x| + 1..] == rest;
        PartsBack(list[1..]);
      }
    }
  }

  lemma NotEmpty(s: string)
    requires Plain(s)
    ensures s != []
  {
  }

  /** The names of the actions in a mask, in their order. */
  function NamesIn(actions: seq<Action>, mask: set<nat>, n: nat): seq<string>
    requires n <= |actions|
  {
    if n == 0 then [] else NamesIn(actions, mask, n - 1) + if n - 1 in mask then [actions[n - 1].name] else []
  }

  ghost predicate ActionsFit(actions: seq<Action>) {
    && (forall i :: 0 <= i < |actions| ==> ValidName(actions[i].name))
    && (forall i, j :: 0 <= i < j < |actions| ==> actions[i].name != actions[j].name)
  }

  lemma {:induction false} NamesBack(actions: seq<Action>, mask: set<nat>, n: nat)
    requires ActionsFit(actions) && n <= |actions|
    ensures forall i :: 0 <= i < |NamesIn(actions, mask, n)| ==> Plain(NamesIn(actions, mask, n)[i])
    ensures MaskOf(actions, NamesIn(actions, mask, n)) == Some(set i | i in mask && i < n)
  {
    hide ValidName, Plain;
    if n == 0 {
      assert (set i | i in mask && i < n) == {};
    } else {
      NamesBack(actions, mask, n - 1);
      if n - 1 in mask {
        var names, x := NamesIn(actions, mask, n - 1), actions[n - 1].name;
        NamePlain(x);
        IndexFound(actions, n - 1);
        assert (names + [x])[..|names|] == names;
        assert ActionIndex(actions, x) == Some(n - 1);
        assert (set i | i in mask && i < n) == (set i | i in mask && i < n - 1) + {n - 1};
      } else {
        assert NamesIn(actions, mask, n - 1) + [] == NamesIn(actions, mask, n - 1);
        assert (set i | i in mask && i < n) == (set i | i in mask && i < n - 1);
      }
    }
  }

  function ListText(actions: seq<Action>, mask: set<nat>): string {
    Commas(NamesIn(actions, mask, |actions|))
  }

  lemma MaskRead(actions: seq<Action>, mask: set<nat>)
    requires ActionsFit(actions) && mask != {} && Within(mask, |actions|)
    ensures ListMask(actions, ListText(actions, mask)) == Some(mask)
  {
    var names := NamesIn(actions, mask, |actions|);
    NamesBack(actions, mask, |actions|);
    hide Plain, ActionsFit, MaskOf, Parts;
    PartsBack(names);
    assert (set i | i in mask && i < |actions|) == mask;
  }

  function CodeNames(codes: seq<nat>): (names: seq<string>)
    ensures |names| == |codes| && forall i :: 0 <= i < |codes| ==> names[i] == NameOf(codes[i])
  {
    seq(|codes|, i requires 0 <= i < |codes| => NameOf(codes[i]))
  }

  lemma {:induction false} CodesBack(codes: seq<nat>, got: seq<nat>)
    requires |got| + |codes| <= MAX_CODES && forall c :: c in codes ==> KnownCode(c)
    ensures Codes(CodeNames(codes), got) == Some(got + codes)
    decreases |codes|
  {
    hide NameOf, CodeFromName, Plain, KnownCode;
    if codes == [] {
      assert got + codes == got;
    } else {
      var c := codes[0];
      assert c in codes;
      CodeRead(c);
      CodePlain(c);
      assert CodeNames(codes)[1..] == CodeNames(codes[1..]);
      CodesBack(codes[1..], got + [c]);
      assert (got + [c]) + codes[1..] == got + codes;
    }
  }

  lemma CodesRead(codes: seq<nat>)
    requires |codes| <= MAX_CODES && forall c :: c in codes ==> KnownCode(c)
    ensures CodesOf(Parts(Commas(CodeNames(codes)), ',')) == Some(codes)
  {
    forall i | 0 <= i < |codes|
      ensures Plain(CodeNames(codes)[i])
    {
      CodePlain(codes[i]);
    }
    hide Plain, NameOf, KnownCode, Parts;
    PartsBack(CodeNames(codes));
    CodesBack(codes, []);
    assert [] + codes == codes;
  }

  // ----- Rules -----

  function Opt(k: string, v: string): string { k + "=" + v }

  /** An option that is written only if it is needed. */
  function Unless(usual: bool, k: string, v: string): seq<string> {
    if usual then [] else [Opt(k, v)]
  }

  function RuleWords(actions: seq<Action>, r: Rule): seq<string> {
    ["rule", r.name] + RuleOptions(actions, r)
  }

  function RuleOptions(actions: seq<Action>, r: Rule): seq<string> {
    Unless(r.codes == [], "alert", Commas(CodeNames(r.codes))) +
    Unless(r.minLevel == 0, "level", LevelName(r.minLevel)) +
    [Opt("do", ListText(actions, r.doMask))] +
    Unless(r.throttle == 60, "throttle", Spelled(r.throttle, 10)) +
    Unless(r.repeatN == 0, "repeat", Spelled(r.repeatN, 10) + "/" + Spelled(r.window, 10)) +
    Unless(r.unacked == 0, "unacked", Spelled(r.unacked, 10)) +
    Unless(r.thenMask == {}, "then", ListText(actions, r.thenMask)) +
    Unless(r.reset == 3600, "reset", Spelled(r.reset, 10))
  }

  /** A rule in the form the parser gives it: with no repetition asked for, no window either. */
  ghost predicate RuleFits(r: Rule, nactions: nat) {
    RuleOk(r, nactions) && (r.repeatN == 0 ==> r.window == 0)
  }

  /** The options `words` turn draft `d` into `d2`. */
  ghost predicate Turns(actions: seq<Action>, d: Draft, words: seq<string>, d2: Draft) {
    AllOptions(actions, d, words) == Some(d2)
  }

  lemma {:induction false} TurnsThen(actions: seq<Action>, d: Draft, a: seq<string>, d1: Draft, b: seq<string>, d2: Draft)
    requires Turns(actions, d, a, d1) && Turns(actions, d1, b, d2)
    ensures Turns(actions, d, a + b, d2)
    decreases |a|
  {
    hide OptionTok;
    if a == [] {
      assert a + b == b;
    } else {
      TurnsThen(actions, OptionTok(actions, d, a[0]).value, a[1..], d1, b, d2);
      assert (a + b)[1..] == a[1..] + b;
    }
  }

  lemma OptRead(actions: seq<Action>, d: Draft, k: string, v: string, d2: Draft)
    requires '=' !in k && Option1(actions, d, k, v) == Some(d2)
    ensures Turns(actions, d, [Opt(k, v)], d2)
  {
    hide Option1;
    var tok := Opt(k, v);
    UptoFirst(k, '=', v);
    assert tok == k + ['='] + v && tok[..|k|] == k && tok[|k| + 1..] == v;
    assert OptionTok(actions, d, tok) == Some(d2);
    var words := [tok];
    assert words[1..] == [] && AllOptions(actions, d2, words[1..]) == Some(d2);
  }

  lemma NoOption(actions: seq<Action>, d: Draft)
    ensures Turns(actions, d, [], d)
  {
  }

  lemma AlertTurns(actions: seq<Action>, d: Draft, codes: seq<nat>)
    requires d.rule.codes == [] && |codes| <= MAX_CODES && forall c :: c in codes ==> KnownCode(c)
    ensures Turns(actions, d, Unless(codes == [], "alert", Commas(CodeNames(codes))), d.(rule := d.rule.(codes := codes)))
  {
    hide CodesOf, Parts, KnownCode, Commas, Turns;
    if codes == [] {
      NoOption(actions, d);
    } else {
      CodesRead(codes);
      OptRead(actions, d, "alert", Commas(CodeNames(codes)), d.(rule := d.rule.(codes := codes)));
    }
  }

  lemma LevelTurns(actions: seq<Action>, d: Draft, level: int)
    requires d.rule.minLevel == 0 && 0 <= level <= 3
    ensures Turns(actions, d, Unless(level == 0, "level", LevelName(level)), d.(rule := d.rule.(minLevel := level)))
  {
    hide Named, LevelName, Turns;
    if level == 0 {
      NoOption(actions, d);
    } else {
      LevelRead(level);
      OptRead(actions, d, "level", LevelName(level), d.(rule := d.rule.(minLevel := level)));
    }
  }

  lemma DoTurns(actions: seq<Action>, d: Draft, mask: set<nat>)
    requires ActionsFit(actions) && mask != {} && Within(mask, |actions|)
    ensures Turns(actions, d, [Opt("do", ListText(actions, mask))], d.(rule := d.rule.(doMask := mask), haveDo := true))
  {
    hide ListMask, ListText, Turns, ActionsFit, Within;
    MaskRead(actions, mask);
    OptRead(actions, d, "do", ListText(actions, mask), d.(rule := d.rule.(doMask := mask), haveDo := true));
  }

  lemma ThrottleTurns(actions: seq<Action>, d: Draft, n: nat)
    requires d.rule.throttle == 60 && n <= DAY
    ensures Turns(actions, d, Unless(n == 60, "throttle", Spelled(n, 10)), d.(rule := d.rule.(throttle := n)))
  {
    hide Bounded, Spelled, Turns;
    if n == 60 {
      NoOption(actions, d);
    } else {
      NumberRead(n, 0, DAY);
      OptRead(actions, d, "throttle", Spelled(n, 10), d.(rule := d.rule.(throttle := n)));
    }
  }

  lemma ResetTurns(actions: seq<Action>, d: Draft, n: nat)
    requires d.rule.reset == 3600 && 1 <= n <= 30 * DAY
    ensures Turns(actions, d, Unless(n == 3600, "reset", Spelled(n, 10)), d.(rule := d.rule.(reset := n)))
  {
    hide Bounded, Spelled, Turns;
    if n == 3600 {
      NoOption(actions, d);
    } else {
      NumberRead(n, 1, 30 * DAY);
      OptRead(actions, d, "reset", Spelled(n, 10), d.(rule := d.rule.(reset := n)));
    }
  }

  lemma UnackedTurns(actions: seq<Action>, d: Draft, n: nat)
    requires d.rule.unacked == 0 && n <= 30 * DAY
    ensures Turns(actions, d, Unless(n == 0, "unacked", Spelled(n, 10)), d.(rule := d.rule.(unacked := n)))
  {
    hide Bounded, Spelled, Turns;
    if n == 0 {
      NoOption(actions, d);
    } else {
      NumberRead(n, 1, 30 * DAY);
      OptRead(actions, d, "unacked", Spelled(n, 10), d.(rule := d.rule.(unacked := n)));
    }
  }

  lemma RepeatRead(n: nat, window: nat)
    requires 2 <= n <= MAX_REPEAT && 1 <= window <= DAY
    ensures RepeatOf(Spelled(n, 10) + "/" + Spelled(window, 10)) == Some((n, window))
  {
    var a, b := Spelled(n, 10), Spelled(window, 10);
    SpelledValue(n, 10);
    hide Bounded, Spelled, Value;
    NumberRead(n, 2, MAX_REPEAT);
    NumberRead(window, 1, DAY);
    UptoFirst(a, '/', b);
    var v := a + "/" + b;
    assert v == a + ['/'] + b && v[..|a|] == a && v[|a| + 1..] == b;
  }

  lemma RepeatTurns(actions: seq<Action>, d: Draft, n: nat, window: nat)
    requires d.rule.repeatN == 0 && d.rule.window == 0
    requires if n == 0 then window == 0 else 2 <= n <= MAX_REPEAT && 1 <= window <= DAY
    ensures Turns(actions, d, Unless(n == 0, "repeat", Spelled(n, 10) + "/" + Spelled(window, 10)),
                  d.(rule := d.rule.(repeatN := n, window := window)))
  {
    hide RepeatOf, Spelled, Turns;
    if n == 0 {
      NoOption(actions, d);
    } else {
      RepeatRead(n, window);
      OptRead(actions, d, "repeat", Spelled(n, 10) + "/" + Spelled(window, 10), d.(rule := d.rule.(repeatN := n, window := window)));
    }
  }

  lemma ThenTurns(actions: seq<Action>, d: Draft, mask: set<nat>)
    requires d.list == None
    ensures Turns(actions, d, Unless(mask == {}, "then", ListText(actions, mask)),
                  d.(list := if mask == {} then None else Some(ListText(actions, mask))))
  {
    hide ListText, Turns;
    if mask == {} {
      NoOption(actions, d);
    } else {
      OptRead(actions, d, "then", ListText(actions, mask), d.(list := Some(ListText(actions, mask))));
    }
  }

  /** The options of a rule, read from the defaults. */
  lemma OptionsRead(actions: seq<Action>, r: Rule)
    requires ActionsFit(actions) && RuleFits(r, |actions|)
    ensures Turns(actions, Draft(Rule(r.name, [], 0, 60, {}, 0, 0, 0, {}, 3600), false, None), RuleOptions(actions, r),
                  Draft(r.(thenMask := {}), true, if r.thenMask == {} then None else Some(ListText(actions, r.thenMask))))
  {
    hide Turns, KnownCode, ValidName, ActionsFit, ListText, Within, Spelled, Commas, LevelName, CodeNames;
    var d0 := Draft(Rule(r.name, [], 0, 60, {}, 0, 0, 0, {}, 3600), false, None);
    AlertTurns(actions, d0, r.codes);
    var d1 := d0.(rule := d0.rule.(codes := r.codes));
    LevelTurns(actions, d1, r.minLevel);
    var d2 := d1.(rule := d1.rule.(minLevel := r.minLevel));
    DoTurns(actions, d2, r.doMask);
    var d3 := d2.(rule := d2.rule.(doMask := r.doMask), haveDo := true);
    ThrottleTurns(actions, d3, r.throttle);
    var d4 := d3.(rule := d3.rule.(throttle := r.throttle));
    var a := Unless(r.codes == [], "alert", Commas(CodeNames(r.codes)));
    var b := Unless(r.minLevel == 0, "level", LevelName(r.minLevel));
    var c := [Opt("do", ListText(actions, r.doMask))];
    var e := Unless(r.throttle == 60, "throttle", Spelled(r.throttle, 10));
    TurnsThen(actions, d0, a, d1, b, d2);
    TurnsThen(actions, d0, a + b, d2, c, d3);
    TurnsThen(actions, d0, a + b + c, d3, e, d4);
    LaterOptions(actions, r, d4);
    TurnsThen(actions, d0, a + b + c + e, d4, Later(actions, r),
              Draft(r.(thenMask := {}), true, if r.thenMask == {} then None else Some(ListText(actions, r.thenMask))));
    hide Unless, Opt;
    OptionsSplit(actions, r);
  }

  function Later(actions: seq<Action>, r: Rule): seq<string> {
    Unless(r.repeatN == 0, "repeat", Spelled(r.repeatN, 10) + "/" + Spelled(r.window, 10)) +
    Unless(r.unacked == 0, "unacked", Spelled(r.unacked, 10)) +
    Unless(r.thenMask == {}, "then", ListText(actions, r.thenMask)) +
    Unless(r.reset == 3600, "reset", Spelled(r.reset, 10))
  }

  lemma OptionsSplit(actions: seq<Action>, r: Rule)
    ensures RuleOptions(actions, r) ==
            Unless(r.codes == [], "alert", Commas(CodeNames(r.codes))) + Unless(r.minLevel == 0, "level", LevelName(r.minLevel)) +
            [Opt("do", ListText(actions, r.doMask))] + Unless(r.throttle == 60, "throttle", Spelled(r.throttle, 10)) +
            Later(actions, r)
  {
    hide Unless, Opt, ListText, Spelled, Commas, CodeNames;
  }

  lemma LaterOptions(actions: seq<Action>, r: Rule, d4: Draft)
    requires RuleFits(r, |actions|) && d4.haveDo && d4.list == None
    requires d4.rule == r.(repeatN := 0, window := 0, unacked := 0, thenMask := {}, reset := 3600)
    ensures Turns(actions, d4, Later(actions, r),
                  Draft(r.(thenMask := {}), true, if r.thenMask == {} then None else Some(ListText(actions, r.thenMask))))
  {
    hide Turns, KnownCode, ValidName, ListText, Within, Spelled;
    RepeatTurns(actions, d4, r.repeatN, r.window);
    var d5 := d4.(rule := d4.rule.(repeatN := r.repeatN, window := r.window));
    UnackedTurns(actions, d5, r.unacked);
    var d6 := d5.(rule := d5.rule.(unacked := r.unacked));
    ThenTurns(actions, d6, r.thenMask);
    var d7 := d6.(list := if r.thenMask == {} then None else Some(ListText(actions, r.thenMask)));
    ResetTurns(actions, d7, r.reset);
    var d8 := d7.(rule := d7.rule.(reset := r.reset));
    var a := Unless(r.repeatN == 0, "repeat", Spelled(r.repeatN, 10) + "/" + Spelled(r.window, 10));
    var b := Unless(r.unacked == 0, "unacked", Spelled(r.unacked, 10));
    var c := Unless(r.thenMask == {}, "then", ListText(actions, r.thenMask));
    var e := Unless(r.reset == 3600, "reset", Spelled(r.reset, 10));
    TurnsThen(actions, d4, a, d5, b, d6);
    TurnsThen(actions, d4, a + b, d6, c, d7);
    TurnsThen(actions, d4, a + b + c, d7, e, d8);
  }

  lemma RuleRead(pol: Policy, r: Rule)
    requires ActionsFit(pol.actions) && RuleFits(r, |pol.actions|) && |pol.rules| < MAX_RULES && !Taken(pol.rules, r.name)
    ensures RuleOf(pol, RuleWords(pol.actions, r)) == Some(r)
  {
    var words := RuleWords(pol.actions, r);
    OptionsRead(pol.actions, r);
    if r.thenMask != {} {
      MaskRead(pol.actions, r.thenMask);
    }
    RuleShape(pol.actions, r);
    hide AllOptions, ListMask, ListText, KnownCode, ValidName, ActionsFit, Taken, RuleWords, RuleOptions;
    assert FreshRule(r.name) == Rule(r.name, [], 0, 60, {}, 0, 0, 0, {}, 3600);
  }

  lemma RuleShape(actions: seq<Action>, r: Rule)
    ensures var w := RuleWords(actions, r);
            3 <= |w| <= 10 && w[0] == "rule" && w[1] == r.name && w[2..] == RuleOptions(actions, r)
  {
    hide ListText, Spelled, Commas, CodeNames, LevelName, Opt;
    assert RuleWords(actions, r)[2..] == RuleOptions(actions, r);
  }
}

/** The driver-load gate: parsing the deny and allow lists, the verdict, and the notifier. */
module ModGate {
  import opened Options
  import opened Bytes
  import opened ModuleId

  const LIST_MAX := 64
  const COMMA: Byte := 44
  const DASH: Byte := 45
  const UNDERSCORE: Byte := 95

  datatype Deny = Deny(name: Str, srcver: Str)

  predicate Sep(c: Byte) { c == COMMA || c == 32 || c == 9 || c == 10 }

  /** The kernel's isalnum, which also counts the letters of Latin-1. */
  predicate Alnum(c: Byte) {
    Digit(c) || Letter(c) || (192 <= c && c != 215 && c != 247)
  }

  predicate NameOk(s: Str) {
    0 < |s| < NAME_MAX && forall c :: c in s ==> Alnum(c) || c == UNDERSCORE || c == DASH || c == 46
  }

  predicate HexOk(s: Str) {
    0 < |s| < SRCVER_MAX && forall c :: c in s ==> HexChar(c)
  }

  function Under(c: Byte): Byte { if c == DASH then UNDERSCORE else c }
  function Upper(c: Byte): Byte { if 97 <= c <= 122 then c - 32 else c }

  function Mapped(s: Str, f: Byte -> Byte): (r: Str)
    ensures |r| == |s|
  {
    seq(|s|, i requires 0 <= i < |s| => f(s[i]))
  }

  // ----- What a list means -----

  function At(e: Str): (n: nat)
    ensures n <= |e| && (n < |e| ==> e[n] == AT) && forall i :: 0 <= i < n ==> e[i] != AT
  {
    if e == [] || e[0] == AT then 0 else 1 + At(e[1..])
  }

  /** One entry, if it is well formed; versions only in the deny list. */
  function EntryOf(e: Str, isDeny: bool): Option<Deny> {
    var n := At(e);
    if !NameOk(e[..n]) || (n < |e| && (!isDeny || !HexOk(e[n + 1..]))) then None
    else Some(Deny(Mapped(e[..n], Under), if n < |e| then Mapped(e[n + 1..], Upper) else []))
  }

  function Run(s: Str): (n: nat)
    ensures n <= |s| && (n < |s| ==> Sep(s[n])) && forall i :: 0 <= i < n ==> !Sep(s[i])
  {
    if s == [] || Sep(s[0]) then 0 else 1 + Run(s[1..])
  }

  function SkipSeps(s: Str): (t: Str)
    ensures |t| <= |s| && (t == [] || !Sep(t[0]))
  {
    if s != [] && Sep(s[0]) then SkipSeps(s[1..]) else s
  }

  /** The entries of a list: what stands between separators. */
  function Split(s: Str): seq<Str>
    decreases |s|
  {
    var t := SkipSeps(s);
    if t == [] then [] else [t[..Run(t)]] + Split(t[Run(t)..])
  }

  datatype Lists = Lists(kept: seq<Deny>, ignored: nat)

  function Taken(l: Lists, e: Str, isDeny: bool): Lists {
    var d := EntryOf(e, isDeny);
    if d.None? || |l.kept| >= LIST_MAX then l.(ignored := l.ignored + 1) else l.(kept := l.kept + [d.value])
  }

  function AllTaken(l: Lists, es: seq<Str>, isDeny: bool): Lists
    decreases |es|
  {
    if es == [] then l else AllTaken(Taken(l, es[0], isDeny), es[1..], isDeny)
  }

  // ----- The parser -----

  method PastSeps(csv: Str, p: nat) returns (start: nat)
    requires p <= |csv|
    ensures p <= start <= |csv| && SkipSeps(csv[p..]) == csv[start..]
  {
    start := p;
    while start < |csv| && Sep(csv[start])
      invariant p <= start <= |csv| && SkipSeps(csv[p..]) == SkipSeps(csv[start..])
    {
      assert csv[start..][1..] == csv[start + 1..];
      start := start + 1;
    }
  }

  method RunLength(csv: Str, start: nat) returns (n: nat)
    requires start <= |csv|
    ensures n == Run(csv[start..]) && start + n <= |csv|
  {
    n := 0;
    while start + n < |csv| && !Sep(csv[start + n])
      invariant start + n <= |csv| && Run(csv[start..]) == n + Run(csv[start + n..])
    {
      assert csv[start + n..][1..] == csv[start + n + 1..];
      n := n + 1;
    }
  }

  /** The next entry from p on: where it begins and how long it is. */
  method Next(csv: Str, p: nat) returns (start: nat, n: nat)
    requires p <= |csv|
    ensures p <= start <= start + n <= |csv|
    ensures n == 0 ==> Split(csv[p..]) == []
    ensures n > 0 ==> Split(csv[p..]) == [csv[start..start + n]] + Split(csv[start + n..])
  {
    hide Split;
    start := PastSeps(csv, p);
    n := RunLength(csv, start);
    ghost var t := csv[start..];
    SplitIs(csv[p..], t);
    assert t[..n] == csv[start..start + n] && t[n..] == csv[start + n..];
  }

  lemma SplitIs(s: Str, t: Str)
    requires t == SkipSeps(s)
    ensures Split(s) == if t == [] then [] else [t[..Run(t)]] + Split(t[Run(t)..])
  {
  }

  class Gate {
    var deny: seq<Deny>
    var allow: seq<Str>
    var base: seq<Str>
    var ignored: nat
    var lockOn: bool
    var denyHits: nat
    var lockHits: nat
    var blocked: nat

    ghost predicate Valid()
      reads this
    {
      |deny| <= LIST_MAX && |allow| <= LIST_MAX && blocked <= denyHits + lockHits
    }

    constructor ()
      ensures Valid() && deny == [] && allow == [] && base == [] && ignored == 0 && !lockOn
      ensures denyHits == lockHits == blocked == 0
    {
      deny, allow, base, ignored, lockOn := [], [], [], 0, false;
      denyHits, lockHits, blocked := 0, 0, 0;
    }

    method ParseDeny(csv: Str)
      requires Valid()
      modifies this`deny, this`ignored
      ensures Valid() && Lists(deny, ignored) == AllTaken(Lists(old(deny), old(ignored)), Split(csv), true)
    {
      hide Split, EntryOf;
      ghost var l := Lists(deny, ignored);
      var p := 0;
      assert csv[0..] == csv;
      var s, len := Next(csv, p);
      while len != 0
        invariant p <= s <= s + len <= |csv| && |deny| <= LIST_MAX
        invariant len == 0 ==> Split(csv[p..]) == []
        invariant len > 0 ==> Split(csv[p..]) == [csv[s..s + len]] + Split(csv[s + len..])
        invariant AllTaken(l, Split(csv), true) == AllTaken(Lists(deny, ignored), Split(csv[p..]), true)
        decreases |csv| - p
      {
        var e := csv[s..s + len];
        var d := ReadEntry(e, true);
        if d.None? {
          ignored := ignored + 1;
        } else if |deny| >= LIST_MAX {
          ignored := ignored + 1;
        } else {
          deny := deny + [d.value];
        }
        p := s + len;
        s, len := Next(csv, p);
      }
    }

    method ParseAllow(csv: Str)
      requires Valid()
      modifies this`allow, this`ignored
      ensures Valid() && Lists(Plain(allow), ignored) == AllTaken(Lists(Plain(old(allow)), old(ignored)), Split(csv), false)
    {
      hide Split, EntryOf;
      ghost var l := Lists(Plain(allow), ignored);
      var p := 0;
      assert csv[0..] == csv;
      var s, len := Next(csv, p);
      while len != 0
        invariant p <= s <= s + len <= |csv| && |allow| <= LIST_MAX
        invariant len == 0 ==> Split(csv[p..]) == []
        invariant len > 0 ==> Split(csv[p..]) == [csv[s..s + len]] + Split(csv[s + len..])
        invariant AllTaken(l, Split(csv), false) == AllTaken(Lists(Plain(allow), ignored), Split(csv[p..]), false)
        decreases |csv| - p
      {
        var e := csv[s..s + len];
        var d := ReadEntry(e, false);
        if d.None? {
          ignored := ignored + 1;
        } else if |allow| >= LIST_MAX {
          ignored := ignored + 1;
        } else {
          NoVersion(e);
          assert Plain(allow + [d.value.name]) == Plain(allow) + [d.value];
          allow := allow + [d.value.name];
        }
        p := s + len;
        s, len := Next(csv, p);
      }
    }

    /** A name on the list, with any version or with this one. */
    method Denied(mod: Mod) returns (hit: bool)
      ensures hit == IsDenied(deny, mod)
    {
      var i := 0;
      while i < |deny|
        invariant i <= |deny| && forall j :: 0 <= j < i ==> !Hits(deny[j], mod)
      {
        if deny[i].name == mod.name {
          if deny[i].srcver == [] {
            return true;
          }
          if mod.srcversion.Some? && SameFold(deny[i].srcver, mod.srcversion.value) {
            return true;
          }
        }
        i := i + 1;
      }
      return false;
    }

    method Trusted(name: Str) returns (hit: bool)
      ensures hit <==> name in allow || name in base
    {
      var i := 0;
      while i < |allow|
        invariant i <= |allow| && name !in allow[..i]
      {
        if allow[i] == name {
          return true;
        }
        i := i + 1;
      }
      assert allow[..i] == allow;
      i := 0;
      while i < |base|
        invariant i <= |base| && name !in base[..i]
      {
        if base[i] == name {
          return true;
        }
        i := i + 1;
      }
      assert base[..i] == base;
      return false;
    }

    /** A module is being loaded; what is reported, and whether the load is refused. */
    method Notify(coming: bool, self: bool, mod: Mod, enforcing: bool) returns (refused: bool, alert: Alert)
      requires Valid()
      modifies this`denyHits, this`lockHits, this`blocked
      ensures Valid()
      ensures var denied := coming && !self && IsDenied(deny, mod);
              var unexpected := coming && !self && !denied && lockOn && mod.name !in allow && mod.name !in base;
              && denyHits == old(denyHits) + (if denied then 1 else 0)
              && lockHits == old(lockHits) + (if unexpected then 1 else 0)
              && refused == (enforcing && (denied || unexpected))
              && blocked == old(blocked) + (if refused then 1 else 0)
              && alert == (if denied then (if refused then Blocked(true) else Vulnerable)
                           else if unexpected then (if refused then Blocked(false) else Unexpected) else Silent)
    {
      if !coming || self {
        return false, Silent;
      }
      var denied := Denied(mod);
      var unexpected := false;
      if !denied && lockOn {
        var t := Trusted(mod.name);
        unexpected := !t;
      }
      if !denied && !unexpected {
        return false, Silent;
      }
      if denied {
        denyHits := denyHits + 1;
      } else {
        lockHits := lockHits + 1;
      }
      if enforcing {
        blocked := blocked + 1;
        return true, Blocked(denied);
      }
      return false, if denied then Vulnerable else Unexpected;
    }
  }

  /** What the notifier reports; a blocked deny-list hit is critical. */
  datatype Alert = Silent | Vulnerable | Unexpected | Blocked(critical: bool)

  datatype Mod = Mod(name: Str, srcversion: Option<Str>)

  function Plain(names: seq<Str>): seq<Deny> {
    seq(|names|, i requires 0 <= i < |names| => Deny(names[i], []))
  }

  lemma NoVersion(e: Str)
    ensures EntryOf(e, false).Some? ==> EntryOf(e, false).value.srcver == []
  {
  }

  predicate SameFold(a: Str, b: Str) {
    |a| == |b| && forall i :: 0 <= i < |a| ==> Upper(a[i]) == Upper(b[i])
  }

  predicate Hits(d: Deny, mod: Mod) {
    d.name == mod.name && (d.srcver == [] || (mod.srcversion.Some? && SameFold(d.srcver, mod.srcversion.value)))
  }

  predicate IsDenied(list: seq<Deny>, mod: Mod) {
    exists i :: 0 <= i < |list| && Hits(list[i], mod)
  }

  /** Splits an entry at the @, checks both halves and normalises them. */
  method ReadEntry(e: Str, isDeny: bool) returns (d: Option<Deny>)
    ensures d == EntryOf(e, isDeny)
  {
    var n := At(e);
    if !NameOk(e[..n]) || (n < |e| && (!isDeny || !HexOk(e[n + 1..]))) {
      return None;
    }
    var name := new Byte[n];
    var i := 0;
    while i < n
      invariant i <= n && forall j :: 0 <= j < i ==> name[j] == Under(e[j])
    {
      name[i] := if e[i] == DASH then UNDERSCORE else e[i];
      i := i + 1;
    }
    assert name[..] == Mapped(e[..n], Under);
    var vlen := if n < |e| then |e| - n - 1 else 0;
    var srcver := new Byte[vlen];
    i := 0;
    while i < vlen
      invariant i <= vlen && name[..] == Mapped(e[..n], Under) && forall j :: 0 <= j < i ==> srcver[j] == Upper(e[n + 1 + j])
    {
      srcver[i] := Upper(e[n + 1 + i]);
      i := i + 1;
    }
    assert srcver[..] == if n < |e| then Mapped(e[n + 1..], Upper) else [];
    return Some(Deny(name[..], srcver[..]));
  }

  // ----- The round trip -----

  /** What the gate should end up with for an identity. */
  function DenyFor(id: Id): Deny { Deny(Mapped(id.name, Under), Mapped(id.srcversion, Upper)) }

  function Printed(id: Id): Str { id.name + if id.srcversion != [] then [AT] + id.srcversion else [] }

  /** 96 bytes are enough for every accepted identity. */
  lemma EntryWhole(id: Id)
    requires GoodName(id.name) && GoodVersion(id.srcversion)
    ensures Entry(id, 96) == Printed(id)
  {
  }

  lemma {:induction false} AtIs(a: Str, b: Str)
    requires AT !in a && (b == [] || b[0] == AT)
    ensures At(a + b) == |a|
  {
    if a == [] {
      assert a + b == b;
    } else {
      AtIs(a[1..], b);
      assert (a + b)[1..] == a[1..] + b;
    }
  }

  lemma EntryReads(id: Id)
    requires GoodName(id.name) && GoodVersion(id.srcversion)
    ensures EntryOf(Printed(id), true) == Some(DenyFor(id))
    ensures Printed(id) != [] && forall c :: c in Printed(id) ==> !Sep(c)
  {
    var e := Printed(id);
    var b := if id.srcversion != [] then [AT] + id.srcversion else [];
    assert AT !in id.name;
    AtIs(id.name, b);
    assert e[..|id.name|] == id.name;
    if id.srcversion != [] {
      assert e[|id.name| + 1..] == id.srcversion;
    } else {
      assert Mapped([], Upper) == [];
    }
  }

  function Joined(es: seq<Str>): Str {
    if es == [] then [] else if |es| == 1 then es[0] else es[0] + [COMMA] + Joined(es[1..])
  }

  lemma {:induction false} RunIs(a: Str, b: Str)
    requires (forall c :: c in a ==> !Sep(c)) && (b == [] || Sep(b[0]))
    ensures Run(a + b) == |a|
  {
    if a == [] {
      assert a + b == b;
    } else {
      assert a[0] in a;
      RunIs(a[1..], b);
      assert (a + b)[1..] == a[1..] + b;
    }
  }

  lemma {:induction false} SplitJoined(es: seq<Str>)
    requires forall i :: 0 <= i < |es| ==> es[i] != [] && forall c :: c in es[i] ==> !Sep(c)
    ensures Split(Joined(es)) == es
  {
    if es != [] {
      var s, e := Joined(es), es[0];
      var b := if |es| == 1 then [] else [COMMA] + Joined(es[1..]);
      assert s == e + b;
      assert e[0] in e;
      RunIs(e, b);
      SplitIs(s, s);
      assert s[..|e|] == e && s[|e|..] == b;
      if |es| == 1 {
        assert Split([]) == [];
      } else {
        SplitJoined(es[1..]);
        SplitComma(Joined(es[1..]));
      }
      assert es == [e] + es[1..];
    }
  }

  lemma SplitComma(s: Str)
    ensures Split([COMMA] + s) == Split(s)
  {
    assert ([COMMA] + s)[1..] == s;
    SplitIs([COMMA] + s, SkipSeps(s));
    SplitIs(s, SkipSeps(s));
  }

  function AllPrinted(ids: seq<Id>): seq<Str> {
    seq(|ids|, i requires 0 <= i < |ids| => Entry(ids[i], 96))
  }

  function AllFor(ids: seq<Id>): seq<Deny> {
    seq(|ids|, i requires 0 <= i < |ids| => DenyFor(ids[i]))
  }

  lemma {:induction false} TakesAll(ids: seq<Id>, l: Lists)
    requires forall i :: 0 <= i < |ids| ==> GoodName(ids[i].name) && GoodVersion(ids[i].srcversion)
    requires |l.kept| + |ids| <= LIST_MAX
    ensures AllTaken(l, AllPrinted(ids), true) == l.(kept := l.kept + AllFor(ids))
    decreases |ids|
  {
    hide EntryOf, GoodName, GoodVersion, Entry, DenyFor;
    if ids == [] {
      assert l.kept + [] == l.kept;
    } else {
      EntryWhole(ids[0]);
      EntryReads(ids[0]);
      var l' := Taken(l, AllPrinted(ids)[0], true);
      TakesAll(ids[1..], l');
      assert AllPrinted(ids)[1..] == AllPrinted(ids[1..]);
      assert l'.kept + AllFor(ids[1..]) == l.kept + AllFor(ids);
    }
  }

  /** A module matches an identity: the name with dashes read as underscores, and the version if there is one. */
  predicate Identifies(id: Id, mod: Mod) {
    && mod.name == Mapped(id.name, Under)
    && (id.srcversion == [] || (mod.srcversion.Some? && SameFold(id.srcversion, mod.srcversion.value)))
  }

  lemma UpperTwice(s: Str, t: Str)
    ensures SameFold(Mapped(s, Upper), t) <==> SameFold(s, t)
  {
  }

  lemma HitsIdentified(id: Id, mod: Mod)
    ensures Hits(DenyFor(id), mod) <==> Identifies(id, mod)
  {
    hide SameFold;
    if mod.srcversion.Some? {
      UpperTwice(id.srcversion, mod.srcversion.value);
    }
  }

  /**
   Up to 64 files the reader accepts, their printed entries joined by commas: the gate keeps exactly those
   entries, ignores none, and denies exactly the modules the files identify.
   */
  lemma RoundTrip(imgs: seq<Str>, ids: seq<Id>, mod: Mod)
    requires |imgs| == |ids| <= LIST_MAX
    requires forall i :: 0 <= i < |imgs| ==> Parsed(imgs[i]) == (Ok, ids[i])
    ensures AllTaken(Lists([], 0), Split(Joined(AllPrinted(ids))), true) == Lists(AllFor(ids), 0)
    ensures IsDenied(AllFor(ids), mod) <==> exists i :: 0 <= i < |ids| && Identifies(ids[i], mod)
  {
    hide Parsed, GoodName, GoodVersion, EntryOf, Entry, Split, Hits, Identifies, Joined, DenyFor, AllTaken;
    forall i | 0 <= i < |ids|
      ensures GoodName(ids[i].name) && GoodVersion(ids[i].srcversion)
      ensures AllPrinted(ids)[i] != [] && forall c :: c in AllPrinted(ids)[i] ==> !Sep(c)
      ensures Hits(AllFor(ids)[i], mod) <==> Identifies(ids[i], mod)
    {
      AcceptedIsGood(imgs[i]);
      EntryWhole(ids[i]);
      EntryReads(ids[i]);
      HitsIdentified(ids[i], mod);
    }
    SplitJoined(AllPrinted(ids));
    TakesAll(ids, Lists([], 0));
    assert [] + AllFor(ids) == AllFor(ids);
    Matching(ids, mod);
  }

  lemma Matching(ids: seq<Id>, mod: Mod)
    requires forall i :: 0 <= i < |ids| ==> (Hits(AllFor(ids)[i], mod) <==> Identifies(ids[i], mod))
    ensures IsDenied(AllFor(ids), mod) <==> exists i :: 0 <= i < |ids| && Identifies(ids[i], mod)
  {
    hide Hits, Identifies;
    if IsDenied(AllFor(ids), mod) {
      var i :| 0 <= i < |ids| && Hits(AllFor(ids)[i], mod);
      assert Identifies(ids[i], mod);
    }
    if i :| 0 <= i < |ids| && Identifies(ids[i], mod) {
      assert Hits(AllFor(ids)[i], mod);
    }
  }
}

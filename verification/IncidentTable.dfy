/** The bounded incident table: every key lives as in an unbounded map, except when its slot is given away. */
module IncidentTable {
  import opened Options
  import opened Incidents
  import opened IncidentRuns

  const SLOTS := 64

  type Slots = seq<Option<Incident>>

  predicate Is(s: Option<Incident>, k: Key) {
    s.Some? && s.value.key == k
  }

  predicate Matches(r: Rule, al: Alert) {
    al.level >= r.minLevel && (r.codes == [] || al.code in r.codes)
  }

  // ----- Finding a slot -----

  /** The first slot below n that holds the key. */
  function KeyIn(s: Slots, n: nat, k: Key): (j: Option<nat>)
    requires n <= |s|
    ensures j.Some? ==> j.value < n && Is(s[j.value], k)
    ensures j.None? ==> forall i :: 0 <= i < n ==> !Is(s[i], k)
  {
    if n == 0 then None
    else
      var p := KeyIn(s, n - 1, k);
      if p.Some? then p else if Is(s[n - 1], k) then Some(n - 1) else None
  }

  function FreeIn(s: Slots, n: nat): (j: Option<nat>)
    requires n <= |s|
    ensures j.Some? ==> j.value < n && s[j.value].None?
    ensures j.None? ==> forall i :: 0 <= i < n ==> s[i].Some?
  {
    if n == 0 then None
    else
      var p := FreeIn(s, n - 1);
      if p.Some? then p else if s[n - 1].None? then Some(n - 1) else None
  }

  /** The least recently used incident below n; of several, the first. */
  function OldestIn(s: Slots, n: nat): (j: Option<nat>)
    requires n <= |s|
    ensures j.Some? ==> j.value < n && s[j.value].Some?
    ensures j.Some? ==> forall i :: 0 <= i < n && s[i].Some? ==> s[j.value].value.last <= s[i].value.last
    ensures j.None? ==> forall i :: 0 <= i < n ==> s[i].None?
  {
    if n == 0 then None
    else
      var p := OldestIn(s, n - 1);
      if s[n - 1].Some? && (p.None? || s[n - 1].value.last < s[p.value].value.last) then Some(n - 1) else p
  }

  /** The slot for a key: its own, a free one, or the least recently used one. */
  function Pick(s: Slots, k: Key): (j: nat)
    requires |s| == SLOTS
    ensures j < SLOTS
    ensures Is(s[j], k) || forall i :: 0 <= i < SLOTS ==> !Is(s[i], k)
    ensures !Is(s[j], k) && s[j].Some? ==>
            forall i :: 0 <= i < SLOTS ==> s[i].Some? && s[j].value.last <= s[i].value.last
  {
    var k, f, o := KeyIn(s, SLOTS, k), FreeIn(s, SLOTS), OldestIn(s, SLOTS);
    if k.Some? then k.value else if f.Some? then f.value else o.value
  }

  // ----- The table's steps -----

  ghost predicate Sized(s: Slots, nrules: nat) {
    && |s| == SLOTS
    && forall i :: 0 <= i < SLOTS ==> WellSized(s[i]) && (s[i].Some? ==> s[i].value.key.rule < nrules)
  }

  ghost predicate Distinct(s: Slots) {
    forall i, j :: 0 <= i < j < |s| && s[i].Some? && s[j].Some? ==> s[i].value.key != s[j].value.key
  }

  datatype Table = Table(slots: Slots, fired: seq<Fired>)

  ghost predicate Fine(t: Table, rules: seq<Rule>) {
    Sized(t.slots, |rules|) && Distinct(t.slots)
  }

  function KeyFor(ri: nat, al: Alert): Key { Key(ri, al.code, al.p1) }

  /** One rule and one alert. */
  function Hit(t: Table, rules: seq<Rule>, ri: nat, al: Alert, now: nat): Table
    requires Sized(t.slots, |rules|) && ri < |rules|
  {
    if !Matches(rules[ri], al) then t
    else
      var k := KeyFor(ri, al);
      var j := Pick(t.slots, k);
      var (i, f) := OnAlert(rules[ri], if Is(t.slots[j], k) then t.slots[j] else None, k, al, now);
      Table(t.slots[j := Some(i)], t.fired + f)
  }

  /** The key whose slot a hit gives away. */
  function Evicted(t: Table, rules: seq<Rule>, ri: nat, al: Alert): Option<Key>
    requires Sized(t.slots, |rules|) && ri < |rules|
  {
    var k := KeyFor(ri, al);
    var j := Pick(t.slots, k);
    if Matches(rules[ri], al) && t.slots[j].Some? && !Is(t.slots[j], k) then Some(t.slots[j].value.key) else None
  }

  function TickOne(s: Option<Incident>, rules: seq<Rule>, now: nat): (Option<Incident>, seq<Fired>)
    requires s.Some? ==> s.value.key.rule < |rules|
  {
    if s.None? then (None, []) else OnTick(rules[s.value.key.rule], s.value, now)
  }

  /** The tick of the first n slots. */
  function TableTicked(t: Table, rules: seq<Rule>, now: nat, n: nat): (t': Table)
    requires Sized(t.slots, |rules|) && n <= SLOTS
    ensures |t'.slots| == SLOTS && forall i :: n <= i < SLOTS ==> t'.slots[i] == t.slots[i]
    ensures forall i :: 0 <= i < n ==> t'.slots[i] == TickOne(t.slots[i], rules, now).0
  {
    if n == 0 then t
    else
      var p := TableTicked(t, rules, now, n - 1);
      var (i, f) := TickOne(t.slots[n - 1], rules, now);
      Table(p.slots[n - 1 := i], p.fired + f)
  }

  function AckOne(s: Option<Incident>, upTo: nat): Option<Incident> {
    if s.None? then None else Some(OnAck(s.value, upTo))
  }

  function TableAcked(t: Table, upTo: nat): Table {
    t.(slots := seq(|t.slots|, i requires 0 <= i < |t.slots| => AckOne(t.slots[i], upTo)))
  }

  // ----- Looking at one key -----

  /** The incident of a key, if it has one. */
  function Lookup(s: Slots, k: Key): Option<Incident> {
    var j := KeyIn(s, |s|, k);
    if j.None? then None else s[j.value]
  }

  function Of(f: seq<Fired>, k: Key): seq<Fired> {
    if f == [] then []
    else Of(f[..|f| - 1], k) + if f[|f| - 1].key == k then [f[|f| - 1]] else []
  }

  lemma {:induction false} OfConcat(a: seq<Fired>, b: seq<Fired>, k: Key)
    ensures Of(a + b, k) == Of(a, k) + Of(b, k)
    decreases |b|
  {
    if b == [] {
      assert a + b == a;
    } else {
      OfConcat(a, b[..|b| - 1], k);
      assert (a + b)[..|a + b| - 1] == a + b[..|b| - 1];
    }
  }

  lemma {:induction false} OfSame(f: seq<Fired>, k: Key, q: Key)
    requires forall i :: 0 <= i < |f| ==> f[i].key == q
    ensures Of(f, k) == if k == q then f else []
  {
    if f != [] {
      OfSame(f[..|f| - 1], k, q);
    }
  }

  lemma LookupIs(s: Slots, k: Key, j: nat)
    requires Distinct(s) && j < |s| && Is(s[j], k)
    ensures Lookup(s, k) == s[j]
  {
  }

  lemma LookupNone(s: Slots, k: Key)
    requires forall i :: 0 <= i < |s| ==> !Is(s[i], k)
    ensures Lookup(s, k) == None
  {
  }

  /** Replacing the incident of one slot by one for a key that is nowhere else. */
  lemma Replace(s: Slots, j: nat, i: Incident, k: Key)
    requires Distinct(s) && j < |s| && forall m :: 0 <= m < |s| && m != j ==> !Is(s[m], i.key)
    ensures var s' := s[j := Some(i)];
            && Distinct(s')
            && Lookup(s', k) == if k == i.key then Some(i) else if Is(s[j], k) then None else Lookup(s, k)
  {
    var s' := s[j := Some(i)];
    if k == i.key {
      LookupIs(s', k, j);
    } else if Is(s[j], k) {
      LookupNone(s', k);
    } else {
      var m := KeyIn(s, |s|, k);
      if m.Some? {
        LookupIs(s', k, m.value);
      } else {
        LookupNone(s', k);
      }
    }
  }

  lemma AlertKeys(r: Rule, i: Option<Incident>, k: Key, al: Alert, now: nat)
    requires WellSized(i) && (i.Some? ==> i.value.key == k)
    ensures var (i', f) := OnAlert(r, i, k, al, now);
            i'.key == k && |i'.recent| == MAX_REPEAT && forall j :: 0 <= j < |f| ==> f[j].key == k
  {
  }

  lemma HitFine(t: Table, rules: seq<Rule>, ri: nat, al: Alert, now: nat)
    requires Fine(t, rules) && ri < |rules|
    ensures Fine(Hit(t, rules, ri, al, now), rules)
  {
    if Matches(rules[ri], al) {
      var k := KeyFor(ri, al);
      var j := Pick(t.slots, k);
      var cur := if Is(t.slots[j], k) then t.slots[j] else None;
      AlertKeys(rules[ri], cur, k, al, now);
      var i := OnAlert(rules[ri], cur, k, al, now).0;
      Replace(t.slots, j, i, k);
      hide OnAlert;
    }
  }

  /** A hit is an arrival for its key, an eviction for the key that loses its slot, and nothing for the others. */
  lemma HitOn(t: Table, rules: seq<Rule>, ri: nat, al: Alert, now: nat, k: Key)
    requires Fine(t, rules) && ri < |rules|
    ensures var t' := Hit(t, rules, ri, al, now);
            if Matches(rules[ri], al) && k == KeyFor(ri, al) then
              && WellSized(Lookup(t.slots, k))
              && var (i, f) := OnAlert(rules[ri], Lookup(t.slots, k), k, al, now);
                 Lookup(t'.slots, k) == Some(i) && Of(t'.fired, k) == Of(t.fired, k) + f
            else
              && Lookup(t'.slots, k) == (if Evicted(t, rules, ri, al) == Some(k) then None else Lookup(t.slots, k))
              && Of(t'.fired, k) == Of(t.fired, k)
  {
    if Matches(rules[ri], al) {
      var q := KeyFor(ri, al);
      var j := Pick(t.slots, q);
      var cur := if Is(t.slots[j], q) then t.slots[j] else None;
      if cur.Some? {
        LookupIs(t.slots, q, j);
      } else {
        LookupNone(t.slots, q);
      }
      AlertKeys(rules[ri], cur, q, al, now);
      var (i, f) := OnAlert(rules[ri], cur, q, al, now);
      hide OnAlert, Lookup;
      Replace(t.slots, j, i, k);
      OfConcat(t.fired, f, k);
      OfSame(f, k, q);
    }
  }

  // ----- Ticks and acknowledgements -----

  lemma TickKeys(s: Option<Incident>, rules: seq<Rule>, now: nat)
    requires s.Some? ==> s.value.key.rule < |rules|
    ensures var (i, f) := TickOne(s, rules, now);
            && (i.Some? ==> s.Some? && i.value.key == s.value.key && i.value.recent == s.value.recent)
            && (forall j :: 0 <= j < |f| ==> s.Some? && f[j].key == s.value.key)
  {
  }

  lemma TickFine(t: Table, rules: seq<Rule>, now: nat)
    requires Fine(t, rules)
    ensures Fine(TableTicked(t, rules, now, SLOTS), rules)
  {
    hide TickOne;
    var t' := TableTicked(t, rules, now, SLOTS);
    forall i | 0 <= i < SLOTS
      ensures WellSized(t'.slots[i]) && (t'.slots[i].Some? ==> t.slots[i].Some? && t'.slots[i].value.key == t.slots[i].value.key)
    {
      TickKeys(t.slots[i], rules, now);
    }
  }

  lemma TickOneOf(s: Option<Incident>, rules: seq<Rule>, now: nat, k: Key)
    requires s.Some? ==> s.value.key.rule < |rules|
    ensures Of(TickOne(s, rules, now).1, k) == if Is(s, k) then TickOne(s, rules, now).1 else []
  {
    TickKeys(s, rules, now);
    if s.Some? {
      OfSame(TickOne(s, rules, now).1, k, s.value.key);
    }
  }

  /** What the first n slots run for a key. */
  lemma {:induction false} TickFired(t: Table, rules: seq<Rule>, now: nat, n: nat, k: Key)
    requires Fine(t, rules) && n <= SLOTS
    ensures Of(TableTicked(t, rules, now, n).fired, k) ==
            Of(t.fired, k) + (if KeyIn(t.slots, n, k).Some? then TickOne(t.slots[KeyIn(t.slots, n, k).value], rules, now).1 else [])
  {
    hide TickOne;
    if n > 0 {
      TickFired(t, rules, now, n - 1, k);
      var p, s := TableTicked(t, rules, now, n - 1), t.slots[n - 1];
      TickOneOf(s, rules, now, k);
      OfConcat(p.fired, TickOne(s, rules, now).1, k);
      hide Of;
    }
  }

  /** A tick is a tick for every key. */
  lemma TickOn(t: Table, rules: seq<Rule>, now: nat, k: Key)
    requires Fine(t, rules) && k.rule < |rules|
    ensures var t' := TableTicked(t, rules, now, SLOTS);
            var (i, f) := TickOne(Lookup(t.slots, k), rules, now);
            Lookup(t'.slots, k) == i && Of(t'.fired, k) == Of(t.fired, k) + f
  {
    TickFired(t, rules, now, SLOTS, k);
    TickFine(t, rules, now);
    var t' := TableTicked(t, rules, now, SLOTS);
    var j := KeyIn(t.slots, SLOTS, k);
    forall m | 0 <= m < SLOTS
      ensures t'.slots[m].Some? ==> t.slots[m].Some? && t'.slots[m].value.key == t.slots[m].value.key
    {
      TickKeys(t.slots[m], rules, now);
    }
    if j.Some? && t'.slots[j.value].Some? {
      LookupIs(t'.slots, k, j.value);
    } else {
      LookupNone(t'.slots, k);
    }
  }

  lemma AckOn(t: Table, rules: seq<Rule>, upTo: nat, k: Key)
    requires Fine(t, rules)
    ensures Fine(TableAcked(t, upTo), rules) && TableAcked(t, upTo).fired == t.fired
    ensures Lookup(TableAcked(t, upTo).slots, k) == AckOne(Lookup(t.slots, k), upTo)
  {
    var t' := TableAcked(t, upTo);
    assert forall m :: 0 <= m < SLOTS ==> Is(t'.slots[m], k) == Is(t.slots[m], k);
    var j := KeyIn(t.slots, SLOTS, k);
    if j.Some? {
      LookupIs(t'.slots, k, j.value);
    } else {
      LookupNone(t'.slots, k);
    }
  }

  // ----- Whole runs of the engine -----

  /** An alert is one hit for every rule, in order. */
  datatype Move = Hits(ri: nat, al: Alert, now: nat) | Tock(now: nat) | Acks(upTo: nat)

  ghost function Moved(rules: seq<Rule>, t: Table, m: Move): Table
    requires Fine(t, rules) && (m.Hits? ==> m.ri < |rules|)
  {
    match m
    case Hits(ri, al, now) => Hit(t, rules, ri, al, now)
    case Tock(now) => TableTicked(t, rules, now, SLOTS)
    case Acks(upTo) => TableAcked(t, upTo)
  }

  lemma MovedFine(rules: seq<Rule>, t: Table, m: Move)
    requires Fine(t, rules) && (m.Hits? ==> m.ri < |rules|)
    ensures Fine(Moved(rules, t, m), rules)
  {
    match m
    case Hits(ri, al, now) => HitFine(t, rules, ri, al, now);
    case Tock(now) => TickFine(t, rules, now);
    case Acks(upTo) => AckOn(t, rules, upTo, Key(0, 0, 0));
  }

  function Empty(): (t: Table)
    ensures |t.slots| == SLOTS && forall i :: 0 <= i < SLOTS ==> t.slots[i].None?
  {
    Table(seq(SLOTS, i => None), [])
  }

  ghost predicate MovesOk(rules: seq<Rule>, ms: seq<Move>) {
    forall i :: 0 <= i < |ms| && ms[i].Hits? ==> ms[i].ri < |rules|
  }

  ghost function Reached(rules: seq<Rule>, ms: seq<Move>): (t: Table)
    requires MovesOk(rules, ms)
    ensures Fine(t, rules)
  {
    if ms == [] then Empty()
    else
      var t := Reached(rules, ms[..|ms| - 1]);
      MovedFine(rules, t, ms[|ms| - 1]);
      Moved(rules, t, ms[|ms| - 1])
  }

  /** What a move means for one key. */
  function Seen(rules: seq<Rule>, t: Table, m: Move, k: Key): seq<Event>
    requires Sized(t.slots, |rules|) && (m.Hits? ==> m.ri < |rules|)
  {
    match m
    case Hits(ri, al, now) =>
      if Matches(rules[ri], al) && KeyFor(ri, al) == k then [Arrive(al, now)]
      else if Evicted(t, rules, ri, al) == Some(k) then [Evict]
      else []
    case Tock(now) => [Tick(now)]
    case Acks(upTo) => [Ack(upTo)]
  }

  ghost function Projected(rules: seq<Rule>, ms: seq<Move>, k: Key): seq<Event>
    requires MovesOk(rules, ms)
  {
    if ms == [] then []
    else Projected(rules, ms[..|ms| - 1], k) + Seen(rules, Reached(rules, ms[..|ms| - 1]), ms[|ms| - 1], k)
  }

  lemma SeenStep(rules: seq<Rule>, t: Table, m: Move, k: Key)
    requires Fine(t, rules) && (m.Hits? ==> m.ri < |rules|) && k.rule < |rules| && WellSized(Lookup(t.slots, k))
    ensures var t' := Moved(rules, t, m);
            var evs := Seen(rules, t, m, k);
            var l := Life(Lookup(t.slots, k), Of(t.fired, k));
            && |evs| <= 1
            && Life(Lookup(t'.slots, k), Of(t'.fired, k)) == if evs == [] then l else Step(rules[k.rule], k, l, evs[0])
  {
    match m {
      case Hits(ri, al, now) =>
        HitOn(t, rules, ri, al, now, k);
        hide Lookup, Of, OnAlert, Hit;
      case Tock(now) =>
        TickOn(t, rules, now, k);
        hide Of, OnTick, TableTicked;
        LookupKey(t.slots, k);
      case Acks(upTo) => AckOn(t, rules, upTo, k);
    }
  }

  lemma LookupKey(s: Slots, k: Key)
    ensures Lookup(s, k).Some? ==> Lookup(s, k).value.key == k
  {
  }

  lemma SeenOk(t: Table, rules: seq<Rule>)
    requires Fine(t, rules)
    ensures Sized(t.slots, |rules|)
  {
  }

  lemma LookupSized(t: Table, rules: seq<Rule>, k: Key)
    requires Fine(t, rules)
    ensures WellSized(Lookup(t.slots, k))
  {
  }

  /** Every key of every run lives exactly the life of its own events; a slot given away is its only other end. */
  lemma {:induction false} KeysLive(rules: seq<Rule>, ms: seq<Move>, k: Key)
    requires MovesOk(rules, ms) && k.rule < |rules|
    ensures var t, l := Reached(rules, ms), Lived(rules[k.rule], k, Projected(rules, ms, k));
            Lookup(t.slots, k) == l.cur && Of(t.fired, k) == l.fired
  {
    if ms == [] {
      LookupNone(Empty().slots, k);
    } else {
      hide Moved, Seen, Lookup, Of, Step, Fine, Lived, Reached, Projected;
      var before, m := ms[..|ms| - 1], ms[|ms| - 1];
      KeysLive(rules, before, k);
      LastMove(rules, ms, k);
      var t := Reached(rules, before);
      LookupSized(t, rules, k);
      SeenStep(rules, t, m, k);
      SeenOk(t, rules);
      LivedOn(rules[k.rule], k, Projected(rules, before, k), Seen(rules, t, m, k));
    }
  }

  /** The last move of a run, for the table and for one key. */
  lemma LastMove(rules: seq<Rule>, ms: seq<Move>, k: Key)
    requires MovesOk(rules, ms) && ms != []
    ensures var before, m := ms[..|ms| - 1], ms[|ms| - 1];
            && MovesOk(rules, before) && (m.Hits? ==> m.ri < |rules|)
            && Reached(rules, ms) == Moved(rules, Reached(rules, before), m)
            && Projected(rules, ms, k) == Projected(rules, before, k) + Seen(rules, Reached(rules, before), m, k)
  {
    hide Moved, Seen;
  }

  lemma LivedOn(r: Rule, k: Key, evs: seq<Event>, more: seq<Event>)
    requires |more| <= 1
    ensures Lived(r, k, evs + more) == if more == [] then Lived(r, k, evs) else Step(r, k, Lived(r, k, evs), more[0])
  {
    hide Step;
    if more == [] {
      assert evs + more == evs;
    } else {
      assert (evs + more)[..|evs + more| - 1] == evs;
    }
  }

  /** Whatever the table does, a slot is given away only when all are taken, and then the least recently used. */
  lemma EvictsOnlyWhenFull(t: Table, rules: seq<Rule>, ri: nat, al: Alert)
    requires Fine(t, rules) && ri < |rules| && Evicted(t, rules, ri, al).Some?
    ensures Lookup(t.slots, KeyFor(ri, al)).None?
    ensures var victim := Lookup(t.slots, Evicted(t, rules, ri, al).value);
            victim.Some? && forall i :: 0 <= i < SLOTS ==> t.slots[i].Some? && victim.value.last <= t.slots[i].value.last
  {
    var k := KeyFor(ri, al);
    var j := Pick(t.slots, k);
    LookupNone(t.slots, k);
    LookupIs(t.slots, t.slots[j].value.key, j);
  }

  // ----- Runs in time, and runs in which no slot is given away -----

  function MoveClock(ms: seq<Move>): nat {
    if ms == [] then 0
    else
      match ms[|ms| - 1]
      case Hits(_, _, now) => now
      case Tock(now) => now
      case Acks(_) => MoveClock(ms[..|ms| - 1])
  }

  ghost predicate InOrder(ms: seq<Move>) {
    ms == [] || (InOrder(ms[..|ms| - 1]) && MoveClock(ms[..|ms| - 1]) <= MoveClock(ms) < U64)
  }

  lemma ClockNext(evs: seq<Event>, ev: Event)
    ensures Clock(evs + [ev]) == (match ev case Arrive(_, now) => now case Tick(now) => now case _ => Clock(evs))
    ensures Chronological(evs + [ev]) <==> Chronological(evs) && Clock(evs) <= Clock(evs + [ev]) < U64
  {
    assert (evs + [ev])[..|evs|] == evs;
  }

  lemma SeenTime(rules: seq<Rule>, t: Table, m: Move, k: Key)
    requires Sized(t.slots, |rules|) && (m.Hits? ==> m.ri < |rules|)
    ensures var evs := Seen(rules, t, m, k);
            && |evs| <= 1 && (m.Tock? ==> evs == [Tick(m.now)]) && (m.Acks? ==> evs == [Ack(m.upTo)])
            && (m.Hits? && evs != [] ==> evs[0] == Arrive(m.al, m.now) || evs[0] == Evict)
  {
  }

  lemma {:induction false} ProjectedInOrder(rules: seq<Rule>, ms: seq<Move>, k: Key)
    requires MovesOk(rules, ms) && InOrder(ms)
    ensures Chronological(Projected(rules, ms, k)) && Clock(Projected(rules, ms, k)) <= MoveClock(ms)
    ensures MoveClock(ms) < U64
  {
    if ms != [] {
      var before, m := ms[..|ms| - 1], ms[|ms| - 1];
      ProjectedInOrder(rules, before, k);
      var t := Reached(rules, before);
      var evs, more := Projected(rules, before, k), Seen(rules, t, m, k);
      SeenTime(rules, t, m, k);
      hide Chronological, Clock, Reached, Seen;
      if more == [] {
        assert evs + more == evs;
      } else {
        ClockNext(evs, more[0]);
        assert more == [more[0]];
      }
    }
  }

  /** The engine over every sequence of alerts, ticks and acknowledgements, key by key. */
  lemma EngineIsSane(rules: seq<Rule>, ms: seq<Move>, k: Key)
    requires MovesOk(rules, ms) && InOrder(ms) && k.rule < |rules| && rules[k.rule].repeatN <= MAX_REPEAT
    ensures Distinct(Reached(rules, ms).slots)
    ensures var t, s := Reached(rules, ms), Told(rules[k.rule], Projected(rules, ms, k));
            Agree(rules[k.rule], Life(Lookup(t.slots, k), Of(t.fired, k)), s)
  {
    KeysLive(rules, ms, k);
    ProjectedInOrder(rules, ms, k);
    hide Reached, Chronological, Agree, Lookup;
    LivesAreSane(rules[k.rule], k, Projected(rules, ms, k));
  }

  /** The events of a key in a table without bounds. */
  function Direct(rules: seq<Rule>, ms: seq<Move>, k: Key): seq<Event>
    requires forall i :: 0 <= i < |ms| && ms[i].Hits? ==> ms[i].ri < |rules|
  {
    if ms == [] then []
    else
      Direct(rules, ms[..|ms| - 1], k) +
      match ms[|ms| - 1]
      case Hits(ri, al, now) => if Matches(rules[ri], al) && KeyFor(ri, al) == k then [Arrive(al, now)] else []
      case Tock(now) => [Tick(now)]
      case Acks(upTo) => [Ack(upTo)]
  }

  /** Every new key found a free slot. */
  ghost predicate Roomy(rules: seq<Rule>, ms: seq<Move>)
    requires MovesOk(rules, ms)
  {
    ms == [] ||
    (Roomy(rules, ms[..|ms| - 1]) &&
     var m := ms[|ms| - 1]; m.Hits? ==> Evicted(Reached(rules, ms[..|ms| - 1]), rules, m.ri, m.al).None?)
  }

  lemma {:induction false} RoomyIsDirect(rules: seq<Rule>, ms: seq<Move>, k: Key)
    requires MovesOk(rules, ms) && Roomy(rules, ms)
    ensures Projected(rules, ms, k) == Direct(rules, ms, k)
  {
    if ms != [] {
      RoomyIsDirect(rules, ms[..|ms| - 1], k);
    }
  }

  /** With room for every new key the table is an unbounded map. */
  lemma Unbounded(rules: seq<Rule>, ms: seq<Move>, k: Key)
    requires MovesOk(rules, ms) && Roomy(rules, ms) && k.rule < |rules|
    ensures var t, l := Reached(rules, ms), Lived(rules[k.rule], k, Direct(rules, ms, k));
            Lookup(t.slots, k) == l.cur && Of(t.fired, k) == l.fired
  {
    KeysLive(rules, ms, k);
    RoomyIsDirect(rules, ms, k);
  }
}

/** One incident of the escalation engine: what an alert, a tick and an acknowledgement do to it. */
module Incidents {
  import opened Options

  const MAX_REPEAT := 16
  const U32 := 0x1_0000_0000
  const I32 := 0x8000_0000
  const U64 := 0x1_0000_0000_0000_0000

  datatype Alert = Alert(code: nat, level: int, sequence: nat, p1: nat, p2: nat, timeNs: nat, details: string)

  /** Action masks are sets of action numbers; no codes means every alert. */
  datatype Rule = Rule(name: string, codes: seq<nat>, minLevel: int, throttle: nat, doMask: set<nat>,
                       repeatN: nat, window: nat, unacked: nat, thenMask: set<nat>, reset: nat)

  datatype Key = Key(rule: nat, code: nat, p1: nat)

  datatype Incident = Incident(key: Key, first: nat, last: nat, lastRun: nat, lastSeq: nat, count: nat,
                               recent: seq<nat>, escalated: bool, acked: bool, alert: Alert)

  /** One decision to run a rule's actions: tier 0 for do=, tier 1 for then=. */
  datatype Fired = Fired(key: Key, tier: nat, mask: set<nat>, at: nat, alert: Alert, count: nat, first: nat)

  /** Unsigned 64-bit difference. */
  function Since(now: nat, past: nat): nat { (now - past) % U64 }

  lemma SinceExact(now: nat, past: nat)
    requires past <= now < U64
    ensures Since(now, past) == now - past
  {
  }

  // ----- The engine's steps on one incident -----

  function Blank(k: Key, now: nat, al: Alert): (i: Incident)
    ensures |i.recent| == MAX_REPEAT
  {
    Incident(k, now, 0, 0, 0, 0, seq(MAX_REPEAT, j => 0), false, false, al)
  }

  /** A missing or acknowledged incident starts over. */
  predicate Fresh(i: Option<Incident>) {
    i.None? || i.value.acked
  }

  function Opened(i: Option<Incident>, k: Key, al: Alert, now: nat): Incident {
    if Fresh(i) then Blank(k, now, al) else i.value
  }

  /** The arrival is recorded in the circular buffer. */
  function Recorded(i: Incident, al: Alert, now: nat): Incident
    requires |i.recent| == MAX_REPEAT
  {
    i.(alert := al, last := now, lastSeq := al.sequence, recent := i.recent[i.count % MAX_REPEAT := now],
       count := (i.count + 1) % U32)
  }

  predicate RunsBase(r: Rule, isNew: bool, i: Incident, now: nat) {
    isNew || Since(now, i.lastRun) >= r.throttle
  }

  /** The incident after the arrival and the base run, before any escalation. */
  function AfterBase(r: Rule, i: Option<Incident>, k: Key, al: Alert, now: nat): Incident
    requires i.Some? ==> |i.value.recent| == MAX_REPEAT
  {
    var a := Recorded(Opened(i, k, al, now), al, now);
    if RunsBase(r, Fresh(i), a, now) then a.(lastRun := now) else a
  }

  /** The Nth most recent arrival is within the window. */
  predicate Repeats(r: Rule, i: Incident, now: nat)
    requires |i.recent| == MAX_REPEAT
  {
    r.repeatN != 0 && !i.escalated && i.count >= r.repeatN &&
    Since(now, i.recent[(i.count - r.repeatN) % MAX_REPEAT]) <= r.window
  }

  function Fire(i: Incident, tier: nat, mask: set<nat>, now: nat): Fired {
    Fired(i.key, tier, mask, now, i.alert, i.count, i.first)
  }

  function OnAlert(r: Rule, i: Option<Incident>, k: Key, al: Alert, now: nat): (Incident, seq<Fired>)
    requires i.Some? ==> |i.value.recent| == MAX_REPEAT
  {
    var base := RunsBase(r, Fresh(i), Recorded(Opened(i, k, al, now), al, now), now);
    var b := AfterBase(r, i, k, al, now);
    var c := if Repeats(r, b, now) then b.(escalated := true) else b;
    (c, (if base then [Fire(b, 0, r.doMask, now)] else []) +
        (if Repeats(r, b, now) then [Fire(c, 1, r.thenMask, now)] else []))
  }

  predicate Silent(r: Rule, i: Incident, now: nat) {
    Since(now, i.last) >= r.reset
  }

  predicate Ages(r: Rule, i: Incident, now: nat) {
    r.unacked != 0 && !i.acked && !i.escalated && Since(now, i.first) >= r.unacked
  }

  function OnTick(r: Rule, i: Incident, now: nat): (Option<Incident>, seq<Fired>) {
    if Silent(r, i, now) then (None, [])
    else if Ages(r, i, now) then
      var j := i.(escalated := true);
      (Some(j), [Fire(j, 1, r.thenMask, now)])
    else (Some(i), [])
  }

  /** Signed 32-bit comparison of sequence numbers. */
  predicate Covers(upTo: nat, sequence: nat) {
    (upTo - sequence) % U32 < I32
  }

  function OnAck(i: Incident, upTo: nat): Incident {
    if Covers(upTo, i.lastSeq) then i.(acked := true) else i
  }

  /** For sequence numbers less than 2^31 apart, wrapping or not, the comparison is the true one. */
  lemma WrapSafe(upTo: nat, sequence: nat)
    requires -I32 <= upTo - sequence < I32
    ensures Covers(upTo % U32, sequence % U32) <==> sequence <= upTo
  {
    var d := upTo - sequence;
    assert (upTo % U32 - sequence % U32) % U32 == d % U32 by {
      var q := upTo / U32 - sequence / U32;
      assert upTo % U32 - sequence % U32 == d - q * U32;
      ModShift(d, q);
    }
    if d >= 0 {
      assert d % U32 == d;
    } else {
      ModShift(d, -1);
      assert (d + U32) % U32 == d + U32;
    }
  }

  lemma ModShift(d: int, q: int)
    ensures (d - q * U32) % U32 == d % U32
  {
    var e := d - q * U32;
    assert e == (d / U32 - q) * U32 + d % U32;
  }

  // ----- Episodes: the same with the whole history -----

  /** Why then= was run: the arrival that closed the repetition, or the age at a tick after `n` arrivals. */
  datatype Cause = Repetition(at: nat, n: nat) | Age(at: nat, n: nat)

  datatype Episode = Episode(arrivals: seq<nat>, bases: seq<nat>, escalations: seq<Cause>, acked: bool, lastSeq: nat)

  /** N arrivals, the newest included, within the inclusive window. */
  predicate Closes(r: Rule, h: seq<nat>) {
    0 < r.repeatN <= |h| && h[|h| - 1] - h[|h| - r.repeatN] <= r.window
  }

  /** Arrival number n is not one of the first N - 1 after the 32-bit count has wrapped. */
  predicate Noticed(r: Rule, n: nat) {
    n < U32 || n % U32 >= r.repeatN
  }

  function Arrived(r: Rule, e: Option<Episode>, al: Alert, now: nat): Episode
    requires e.Some? ==> e.value.bases != []
  {
    if e.None? || e.value.acked then
      Episode([now], [now], if Closes(r, [now]) && Noticed(r, 1) then [Repetition(now, 1)] else [], false, al.sequence)
    else
      var p := e.value;
      var h := p.arrivals + [now];
      Episode(h, if now - p.bases[|p.bases| - 1] >= r.throttle then p.bases + [now] else p.bases,
              if p.escalations == [] && Closes(r, h) && Noticed(r, |h|) then [Repetition(now, |h|)] else p.escalations, false, al.sequence)
  }

  function Ticked(r: Rule, e: Episode, now: nat): Option<Episode>
    requires e.arrivals != []
  {
    if now - e.arrivals[|e.arrivals| - 1] >= r.reset then None
    else if r.unacked != 0 && !e.acked && e.escalations == [] && now - e.arrivals[0] >= r.unacked then
      Some(e.(escalations := [Age(now, |e.arrivals|)]))
    else Some(e)
  }

  function Acked(e: Episode, upTo: nat): Episode {
    if Covers(upTo, e.lastSeq) then e.(acked := true) else e
  }

  /** The slot of arrival number j in the circular buffer. */
  ghost predicate Buffered(recent: seq<nat>, h: seq<nat>) {
    && |recent| == MAX_REPEAT
    && forall j :: 0 <= j < |h| && |h| - MAX_REPEAT <= j ==> recent[j % MAX_REPEAT] == h[j]
  }

  /** The incident stands for the episode. */
  ghost predicate StandsFor(i: Incident, e: Episode) {
    && e.arrivals != [] && e.bases != []
    && i.count == |e.arrivals| % U32 && Buffered(i.recent, e.arrivals)
    && i.first == e.arrivals[0] && i.last == e.arrivals[|e.arrivals| - 1] && i.lastRun == e.bases[|e.bases| - 1]
    && (i.escalated <==> e.escalations != []) && i.acked == e.acked && i.lastSeq == e.lastSeq
  }

  /** The times of an episode: in order, and none beyond `now`. */
  ghost predicate Timely(e: Episode, now: nat) {
    && now < U64
    && (forall j, k :: 0 <= j <= k < |e.arrivals| ==> e.arrivals[j] <= e.arrivals[k])
    && (forall j :: 0 <= j < |e.arrivals| ==> e.arrivals[j] <= now)
    && (forall j :: 0 <= j < |e.bases| ==> e.bases[j] <= now)
  }

  lemma BufferNext(recent: seq<nat>, h: seq<nat>, now: nat)
    requires Buffered(recent, h)
    ensures Buffered(recent[|h| % MAX_REPEAT := now], h + [now])
  {
    var h', r' := h + [now], recent[|h| % MAX_REPEAT := now];
    forall j | 0 <= j < |h'| && |h'| - MAX_REPEAT <= j
      ensures r'[j % MAX_REPEAT] == h'[j]
    {
      if j < |h| {
        assert j % MAX_REPEAT != |h| % MAX_REPEAT;
      }
    }
  }

  lemma Mod16Of32(n: nat)
    ensures n % U32 % MAX_REPEAT == n % MAX_REPEAT
  {
  }

  /**
   The buffer answers the question about the full history, for every N the parser lets through, except that a
   repetition closed by one of the first N - 1 arrivals after the count has wrapped is missed.
   */
  lemma WindowSeen(r: Rule, i: Incident, e: Episode, now: nat)
    requires StandsFor(i, e) && Timely(e, now) && e.arrivals[|e.arrivals| - 1] == now && r.repeatN <= MAX_REPEAT
    ensures Repeats(r, i, now) <==> e.escalations == [] && Closes(r, e.arrivals) && Noticed(r, |e.arrivals|)
  {
    var h := e.arrivals;
    if r.repeatN != 0 && i.count >= r.repeatN {
      var j := |h| - r.repeatN;
      Mod16Shift(|h|, r.repeatN);
      assert i.recent[j % MAX_REPEAT] == h[j];
      SinceExact(now, h[j]);
    }
  }

  /** The code agrees with the full history exactly when the arrival is not one of those. */
  lemma SeenExactly(r: Rule, i: Incident, e: Episode, now: nat)
    requires StandsFor(i, e) && Timely(e, now) && e.arrivals[|e.arrivals| - 1] == now && r.repeatN <= MAX_REPEAT
    requires e.escalations == [] && Closes(r, e.arrivals)
    ensures Repeats(r, i, now) <==> |e.arrivals| < U32 || |e.arrivals| % U32 >= r.repeatN
  {
    WindowSeen(r, i, e, now);
  }

  lemma Mod16Shift(n: nat, k: nat)
    requires k <= n % U32
    ensures (n % U32 - k) % MAX_REPEAT == (n - k) % MAX_REPEAT
  {
  }

  // ----- The incident refines the episode -----

  ghost predicate Both(i: Option<Incident>, e: Option<Episode>) {
    i.Some? == e.Some? && (i.Some? ==> StandsFor(i.value, e.value))
  }

  ghost predicate InTime(e: Option<Episode>, now: nat) {
    now < U64 && (e.Some? ==> Timely(e.value, now))
  }

  /** The times at which a tier was run. */
  function Times(f: seq<Fired>, tier: nat): seq<nat> {
    if f == [] then [] else Times(f[..|f| - 1], tier) + if f[|f| - 1].tier == tier then [f[|f| - 1].at] else []
  }

  /** Every run is of do= or then=, with that mask. */
  ghost predicate Masked(r: Rule, f: seq<Fired>) {
    forall j :: 0 <= j < |f| ==> (f[j].tier == 0 && f[j].mask == r.doMask) || (f[j].tier == 1 && f[j].mask == r.thenMask)
  }

  function EscalationTimes(e: Episode): seq<nat> {
    seq(|e.escalations|, j requires 0 <= j < |e.escalations| => e.escalations[j].at)
  }

  /** What is carried over into the episode an arrival belongs to. */
  function Carried(e: Option<Episode>): Option<Episode> {
    if e.Some? && e.value.acked then None else e
  }

  function EarlierBases(e: Option<Episode>): seq<nat> {
    if Carried(e).None? then [] else e.value.bases
  }

  function Earlier(e: Option<Episode>): seq<Cause> {
    if Carried(e).None? then [] else e.value.escalations
  }

  lemma ArrivedTimely(r: Rule, e: Option<Episode>, al: Alert, now: nat)
    requires InTime(e, now) && (e.Some? ==> e.value.bases != [])
    ensures Timely(Arrived(r, e, al, now), now)
  {
  }

  lemma BlankBuffer(recent: seq<nat>)
    requires |recent| == MAX_REPEAT
    ensures Buffered(recent, [])
  {
  }

  lemma RecordStands(e: Option<Episode>, i: Option<Incident>, r: Rule, k: Key, al: Alert, now: nat)
    requires Both(i, e) && InTime(e, now)
    ensures var a := Recorded(Opened(i, k, al, now), al, now);
            var e' := Arrived(r, e, al, now);
            && a.count == |e'.arrivals| % U32 && Buffered(a.recent, e'.arrivals)
            && a.first == e'.arrivals[0] && a.last == now && !a.acked && a.lastSeq == al.sequence
            && a.escalated == (!Fresh(i) && i.value.escalated) && (!Fresh(i) ==> a.lastRun == i.value.lastRun)
  {
    hide Buffered, Closes;
    if Fresh(i) {
      BlankBuffer(Blank(k, now, al).recent);
      BufferNext(Blank(k, now, al).recent, [], now);
      assert [] + [now] == [now];
    } else {
      BufferNext(i.value.recent, e.value.arrivals, now);
      Mod16Of32(|e.value.arrivals|);
    }
  }

  predicate BaseDue(r: Rule, i: Option<Incident>, k: Key, al: Alert, now: nat)
    requires i.Some? ==> |i.value.recent| == MAX_REPEAT
  {
    RunsBase(r, Fresh(i), Recorded(Opened(i, k, al, now), al, now), now)
  }

  lemma BaseRefines(r: Rule, i: Option<Incident>, e: Option<Episode>, k: Key, al: Alert, now: nat)
    requires Both(i, e) && InTime(e, now)
    ensures var b, e' := AfterBase(r, i, k, al, now), Arrived(r, e, al, now);
            && |b.recent| == MAX_REPEAT && StandsFor(b, e'.(escalations := Earlier(e)))
            && e'.bases == EarlierBases(e) + (if BaseDue(r, i, k, al, now) then [now] else [])
  {
    RecordStands(e, i, r, k, al, now);
    hide Buffered, Closes, Timely, Recorded, Opened;
    if !Fresh(i) {
      LastRunPast(i.value, e.value, now);
    }
  }

  /** The decision about then= is the episode's. */
  lemma AgainRefines(r: Rule, i: Option<Incident>, e: Option<Episode>, k: Key, al: Alert, now: nat)
    requires Both(i, e) && InTime(e, now) && r.repeatN <= MAX_REPEAT
    ensures var b, e' := AfterBase(r, i, k, al, now), Arrived(r, e, al, now);
            && |b.recent| == MAX_REPEAT && Timely(e', now)
            && e'.escalations == (if Repeats(r, b, now) then [Repetition(now, |e'.arrivals|)] else Earlier(e))
            && (Repeats(r, b, now) ==> Earlier(e) == [])
  {
    var e' := Arrived(r, e, al, now);
    BaseRefines(r, i, e, k, al, now);
    ArrivedTimely(r, e, al, now);
    SameTimes(e', e'.(escalations := Earlier(e)), now);
    WindowSeen(r, AfterBase(r, i, k, al, now), e'.(escalations := Earlier(e)), now);
    hide Buffered, Closes, Repeats, Timely, AfterBase, StandsFor, Noticed;
  }

  lemma AlertStands(r: Rule, i: Option<Incident>, e: Option<Episode>, k: Key, al: Alert, now: nat)
    requires Both(i, e) && InTime(e, now) && r.repeatN <= MAX_REPEAT
    ensures StandsFor(OnAlert(r, i, k, al, now).0, Arrived(r, e, al, now))
  {
    BaseRefines(r, i, e, k, al, now);
    AgainRefines(r, i, e, k, al, now);
    hide Buffered, Repeats, Timely, AfterBase, RunsBase, Recorded, Opened, Arrived;
  }

  /** What an alert runs, and when. */
  lemma FiredTimes(r: Rule, i: Option<Incident>, k: Key, al: Alert, now: nat)
    requires (i.Some? ==> |i.value.recent| == MAX_REPEAT) && |AfterBase(r, i, k, al, now).recent| == MAX_REPEAT
    ensures var f := OnAlert(r, i, k, al, now).1;
            && Masked(r, f)
            && Times(f, 0) == (if BaseDue(r, i, k, al, now) then [now] else [])
            && Times(f, 1) == (if Repeats(r, AfterBase(r, i, k, al, now), now) then [now] else [])
  {
    var f := OnAlert(r, i, k, al, now).1;
    var base, again := BaseDue(r, i, k, al, now), Repeats(r, AfterBase(r, i, k, al, now), now);
    hide Repeats, AfterBase, RunsBase, Recorded, Opened, Times;
    TimesTwo(base, again, f, now);
  }

  lemma OneCause(e: Episode, again: bool, now: nat, earlier: seq<Cause>)
    requires e.escalations == if again then [Repetition(now, |e.arrivals|)] else earlier
    requires again ==> earlier == []
    ensures EscalationTimes(e) == EscalationTimes(e.(escalations := earlier)) + if again then [now] else []
  {
  }

  lemma AlertRuns(r: Rule, i: Option<Incident>, e: Option<Episode>, k: Key, al: Alert, now: nat)
    requires Both(i, e) && InTime(e, now) && r.repeatN <= MAX_REPEAT
    ensures var f, e' := OnAlert(r, i, k, al, now).1, Arrived(r, e, al, now);
            && e'.bases == EarlierBases(e) + Times(f, 0)
            && EscalationTimes(e') == EscalationTimes(e'.(escalations := Earlier(e))) + Times(f, 1)
            && Masked(r, f)
  {
    hide OnAlert, Repeats, Timely, BaseDue, Times, Masked, EscalationTimes;
    BaseRefines(r, i, e, k, al, now);
    AgainRefines(r, i, e, k, al, now);
    FiredTimes(r, i, k, al, now);
    var e', again := Arrived(r, e, al, now), Repeats(r, AfterBase(r, i, k, al, now), now);
    hide AfterBase, Arrived, StandsFor;
    OneCause(e', again, now, Earlier(e));
  }

  /** An alert: same decision, same state, and what is run, and when, is what the episode gained. */
  lemma AlertRefines(r: Rule, i: Option<Incident>, e: Option<Episode>, k: Key, al: Alert, now: nat)
    requires Both(i, e) && InTime(e, now) && r.repeatN <= MAX_REPEAT
    ensures var (i', f) := OnAlert(r, i, k, al, now);
            var e' := Arrived(r, e, al, now);
            && StandsFor(i', e') && Timely(e', now) && Masked(r, f)
            && e'.bases == EarlierBases(e) + Times(f, 0)
            && EscalationTimes(e') == EscalationTimes(e'.(escalations := Earlier(e))) + Times(f, 1)
  {
    ArrivedTimely(r, e, al, now);
    hide OnAlert, Arrived, StandsFor, Timely, Times, Masked, EscalationTimes;
    AlertStands(r, i, e, k, al, now);
    AlertRuns(r, i, e, k, al, now);
  }

  lemma LastRunPast(i: Incident, e: Episode, now: nat)
    requires StandsFor(i, e) && Timely(e, now)
    ensures Since(now, i.lastRun) == now - e.bases[|e.bases| - 1]
  {
    SinceExact(now, i.lastRun);
  }

  lemma SameTimes(e: Episode, e': Episode, now: nat)
    requires Timely(e, now) && e'.arrivals == e.arrivals && e'.bases == e.bases
    ensures Timely(e', now)
  {
  }

  lemma TimesTwo(base: bool, again: bool, f: seq<Fired>, now: nat)
    requires |f| == (if base then 1 else 0) + (if again then 1 else 0)
    requires base ==> f[0].tier == 0
    requires again ==> f[|f| - 1].tier == 1
    requires forall j :: 0 <= j < |f| ==> f[j].at == now
    ensures Times(f, 0) == (if base then [now] else []) && Times(f, 1) == (if again then [now] else [])
  {
    NoTimes();
    hide Times;
    if |f| == 2 {
      TimesNext([], f[0]);
      TimesNext([f[0]], f[1]);
      assert f == [f[0]] + [f[1]] && [] + [f[0]] == [f[0]];
    } else if |f| == 1 {
      TimesNext([], f[0]);
      assert f == [] + [f[0]];
    } else {
      assert f == [];
    }
  }

  lemma NoTimes()
    ensures Times([], 0) == [] && Times([], 1) == []
  {
  }

  lemma TimesNext(f: seq<Fired>, x: Fired)
    ensures Times(f + [x], 0) == Times(f, 0) + if x.tier == 0 then [x.at] else []
    ensures Times(f + [x], 1) == Times(f, 1) + if x.tier == 1 then [x.at] else []
  {
    assert (f + [x])[..|f|] == f;
  }

  lemma TickRefines(r: Rule, i: Incident, e: Episode, now: nat)
    requires StandsFor(i, e) && Timely(e, now)
    ensures var (i', f) := OnTick(r, i, now);
            var e' := Ticked(r, e, now);
            && Both(i', e') && Masked(r, f) && Times(f, 0) == []
            && (e'.Some? ==> e'.value.bases == e.bases && EscalationTimes(e'.value) == EscalationTimes(e) + Times(f, 1))
            && (e'.None? ==> Times(f, 1) == [])
  {
    SinceExact(now, i.last);
    SinceExact(now, i.first);
    var f := OnTick(r, i, now).1;
    TimesTwo(false, f != [], f, now);
    hide Times, Buffered;
  }

  lemma AckRefines(i: Incident, e: Episode, upTo: nat)
    requires StandsFor(i, e)
    ensures StandsFor(OnAck(i, upTo), Acked(e, upTo))
  {
  }

  // ----- What every episode is like -----

  /** Every repetition closed by one of the first n arrivals was missed because the count had just wrapped. */
  ghost predicate NoneNoticed(r: Rule, h: seq<nat>, n: nat)
    requires n <= |h|
  {
    forall m :: 0 < m <= n && Closes(r, h[..m]) ==> !Noticed(r, m)
  }

  ghost predicate Spaced(r: Rule, bases: seq<nat>) {
    forall j :: 0 < j < |bases| ==> bases[j] - bases[j - 1] >= r.throttle
  }

  /** then= ran at most once: at the first arrival noticed to close a repetition, or by age before any was. */
  ghost predicate Sane(r: Rule, e: Episode) {
    && e.arrivals != [] && e.bases != [] && Spaced(r, e.bases) && |e.escalations| <= 1
    && (e.escalations == [] ==> NoneNoticed(r, e.arrivals, |e.arrivals|))
    && (e.escalations != [] ==>
        var c := e.escalations[0];
        && 0 < c.n <= |e.arrivals|
        && match c
           case Repetition(at, n) =>
             at == e.arrivals[n - 1] && Closes(r, e.arrivals[..n]) && Noticed(r, n) && NoneNoticed(r, e.arrivals, n - 1)
           case Age(at, n) => NoneNoticed(r, e.arrivals, n) && r.unacked != 0 && at - e.arrivals[0] >= r.unacked)
  }

  /** Below 2^32 arrivals nothing is missed: repetition escalates exactly at the first arrival that closes one. */
  lemma ExactBelowWrap(r: Rule, e: Episode, m: nat)
    requires Sane(r, e) && |e.arrivals| < U32 && 0 < m <= |e.arrivals|
    ensures e.escalations == [] ==> !Closes(r, e.arrivals[..m])
    ensures e.escalations != [] && e.escalations[0].Repetition? ==>
              var n := e.escalations[0].n;
              (m < n ==> !Closes(r, e.arrivals[..m])) && (m == n ==> Closes(r, e.arrivals[..m]))
    ensures e.escalations != [] && e.escalations[0].Age? && m <= e.escalations[0].n ==> !Closes(r, e.arrivals[..m])
  {
    hide Closes;
  }

  lemma NoneNoticedMore(r: Rule, h: seq<nat>, now: nat, n: nat)
    requires n <= |h|
    ensures NoneNoticed(r, h + [now], n) <==> NoneNoticed(r, h, n)
    ensures n == |h| && NoneNoticed(r, h, n) && !(Closes(r, h + [now]) && Noticed(r, n + 1)) ==> NoneNoticed(r, h + [now], n + 1)
  {
    hide Closes;
    assert forall m :: 0 < m <= n ==> (h + [now])[..m] == h[..m];
    assert (h + [now])[..|h| + 1] == h + [now];
  }

  lemma FirstArrival(r: Rule, now: nat)
    ensures NoneNoticed(r, [now], 0) && (!(Closes(r, [now]) && Noticed(r, 1)) ==> NoneNoticed(r, [now], 1))
  {
    assert [now][..1] == [now];
  }

  lemma ArrivedSane(r: Rule, e: Option<Episode>, al: Alert, now: nat)
    requires e.Some? ==> Sane(r, e.value)
    ensures Sane(r, Arrived(r, e, al, now))
  {
    hide Closes;
    if e.None? || e.value.acked {
      FirstArrival(r, now);
      assert [now][..1] == [now];
    } else {
      var p := e.value;
      var h := p.arrivals + [now];
      NoneNoticedMore(r, p.arrivals, now, |p.arrivals|);
      assert h[..|h|] == h;
      if p.escalations != [] {
        var n := p.escalations[0].n;
        assert h[..n] == p.arrivals[..n];
        NoneNoticedMore(r, p.arrivals, now, n);
        NoneNoticedMore(r, p.arrivals, now, n - 1);
      }
    }
  }

  lemma TickedSane(r: Rule, e: Episode, now: nat)
    requires Sane(r, e)
    ensures Ticked(r, e, now).Some? ==> Sane(r, Ticked(r, e, now).value)
  {
  }

  /** An acknowledged episode runs nothing, and the next alert starts another. */
  lemma AckedIsDone(r: Rule, i: Incident, k: Key, al: Alert, now: nat)
    requires i.acked && |i.recent| == MAX_REPEAT
    ensures OnTick(r, i, now).1 == []
    ensures OnTick(r, i, now).0.Some? ==> OnTick(r, i, now).0.value == i
    ensures OnAlert(r, Some(i), k, al, now) == OnAlert(r, None, k, al, now)
  {
  }
}

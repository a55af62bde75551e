/** Whole lives of one incident key. */
module IncidentRuns {
  import opened Options
  import opened Incidents

  /** What can happen to a key; Evict is the table giving its slot away. */
  datatype Event = Arrive(al: Alert, now: nat) | Tick(now: nat) | Ack(upTo: nat) | Evict

  datatype Life = Life(cur: Option<Incident>, fired: seq<Fired>)

  ghost predicate WellSized(i: Option<Incident>) {
    i.Some? ==> |i.value.recent| == MAX_REPEAT
  }

  function Step(r: Rule, k: Key, l: Life, ev: Event): (l': Life)
    requires WellSized(l.cur)
    ensures WellSized(l'.cur)
  {
    match ev
    case Arrive(al, now) => var (i, f) := OnAlert(r, l.cur, k, al, now); Life(Some(i), l.fired + f)
    case Tick(now) =>
      if l.cur.None? then l else var (i, f) := OnTick(r, l.cur.value, now); Life(i, l.fired + f)
    case Ack(upTo) => if l.cur.None? then l else l.(cur := Some(OnAck(l.cur.value, upTo)))
    case Evict => l.(cur := None)
  }

  function Lived(r: Rule, k: Key, evs: seq<Event>): (l: Life)
    ensures WellSized(l.cur)
  {
    if evs == [] then Life(None, []) else Step(r, k, Lived(r, k, evs[..|evs| - 1]), evs[|evs| - 1])
  }

  // ----- The same told in episodes -----

  datatype Story = Story(cur: Option<Episode>, past: seq<Episode>)

  function Close(s: Story): Story {
    Story(None, s.past + if s.cur.Some? then [s.cur.value] else [])
  }

  ghost predicate Begun(s: Story) {
    s.cur.Some? ==> s.cur.value.bases != [] && s.cur.value.arrivals != []
  }

  function Tell(r: Rule, s: Story, ev: Event): (s': Story)
    requires Begun(s)
    ensures Begun(s')
  {
    match ev
    case Arrive(al, now) =>
      Story(Some(Arrived(r, s.cur, al, now)), if s.cur.Some? && s.cur.value.acked then s.past + [s.cur.value] else s.past)
    case Tick(now) =>
      if s.cur.None? then s
      else if Ticked(r, s.cur.value, now).None? then Close(s)
      else s.(cur := Ticked(r, s.cur.value, now))
    case Ack(upTo) => if s.cur.None? then s else s.(cur := Some(Acked(s.cur.value, upTo)))
    case Evict => Close(s)
  }

  function Told(r: Rule, evs: seq<Event>): (s: Story)
    ensures Begun(s)
  {
    if evs == [] then Story(None, []) else Tell(r, Told(r, evs[..|evs| - 1]), evs[|evs| - 1])
  }

  /** The time of the last arrival or tick. */
  function Clock(evs: seq<Event>): nat {
    if evs == [] then 0
    else
      match evs[|evs| - 1]
      case Arrive(_, now) => now
      case Tick(now) => now
      case _ => Clock(evs[..|evs| - 1])
  }

  /** The engine's clock never goes back and fits 64 bits. */
  ghost predicate Chronological(evs: seq<Event>) {
    evs == [] || (Chronological(evs[..|evs| - 1]) && Clock(evs[..|evs| - 1]) <= Clock(evs) < U64)
  }

  /** The base runs of the episodes, one episode after the other. */
  function Bases(es: seq<Episode>): seq<nat> {
    if es == [] then [] else Bases(es[..|es| - 1]) + es[|es| - 1].bases
  }

  /** The times of their escalations. */
  function Escalations(es: seq<Episode>): seq<nat> {
    if es == [] then [] else Escalations(es[..|es| - 1]) + EscalationTimes(es[|es| - 1])
  }

  function All(s: Story): seq<Episode> {
    s.past + if s.cur.Some? then [s.cur.value] else []
  }

  /** do= and then= were run exactly at the times the episodes say, with their masks. */
  ghost predicate RanAsTold(r: Rule, l: Life, s: Story) {
    Times(l.fired, 0) == Bases(All(s)) && Times(l.fired, 1) == Escalations(All(s)) && Masked(r, l.fired)
  }

  /** What a life and its story have in common. */
  ghost predicate Agree(r: Rule, l: Life, s: Story) {
    && Both(l.cur, s.cur) && RanAsTold(r, l, s)
    && (s.cur.Some? ==> Sane(r, s.cur.value)) && AllSane(r, s.past)
  }

  ghost predicate AllSane(r: Rule, es: seq<Episode>) {
    forall j :: 0 <= j < |es| ==> Sane(r, es[j])
  }

  lemma SaneNext(r: Rule, es: seq<Episode>, e: Episode)
    requires AllSane(r, es) && Sane(r, e)
    ensures AllSane(r, es + [e])
  {
  }

  lemma {:induction false} TimesConcat(a: seq<Fired>, b: seq<Fired>, tier: nat)
    ensures Times(a + b, tier) == Times(a, tier) + Times(b, tier)
    decreases |b|
  {
    if b == [] {
      assert a + b == a;
    } else {
      TimesConcat(a, b[..|b| - 1], tier);
      assert (a + b)[..|a + b| - 1] == a + b[..|b| - 1];
    }
  }

  lemma MaskedConcat(r: Rule, a: seq<Fired>, b: seq<Fired>)
    requires Masked(r, a) && Masked(r, b)
    ensures Masked(r, a + b)
  {
  }

  lemma Another(es: seq<Episode>, e: Episode)
    ensures Escalations(es + [e]) == Escalations(es) + EscalationTimes(e) && Bases(es + [e]) == Bases(es) + e.bases
  {
    assert (es + [e])[..|es|] == es;
  }

  /** More of the same episode, or the beginning of another. */
  lemma Grown(past: seq<Episode>, e: Option<Episode>, e': Episode, bases: seq<nat>, escalations: seq<nat>)
    requires e'.bases == EarlierBases(e) + bases
    requires EscalationTimes(e') == EscalationTimes(e'.(escalations := Earlier(e))) + escalations
    ensures var before, after := Story(e, past), Story(Some(e'), if e.Some? && e.value.acked then past + [e.value] else past);
            Bases(All(after)) == Bases(All(before)) + bases && Escalations(All(after)) == Escalations(All(before)) + escalations
  {
    hide Bases, Escalations;
    if e.Some? {
      Another(past, e.value);
      assert !e.value.acked ==> EscalationTimes(e'.(escalations := Earlier(e))) == EscalationTimes(e.value);
    } else {
      assert past + [] == past;
    }
    var past' := if e.Some? && e.value.acked then past + [e.value] else past;
    Another(past', e');
    if Carried(e).None? {
      assert EscalationTimes(e'.(escalations := [])) == [];
      assert [] + bases == bases && [] + escalations == escalations;
    } else {
      assert Bases(past) + (e.value.bases + bases) == Bases(past) + e.value.bases + bases;
      assert Escalations(past) + (EscalationTimes(e.value) + escalations) == Escalations(past) + EscalationTimes(e.value) + escalations;
    }
  }

  lemma ArriveRan(r: Rule, k: Key, l: Life, s: Story, al: Alert, now: nat)
    requires Both(l.cur, s.cur) && RanAsTold(r, l, s) && InTime(s.cur, now) && r.repeatN <= MAX_REPEAT
    requires WellSized(l.cur) && Begun(s)
    ensures RanAsTold(r, Step(r, k, l, Arrive(al, now)), Tell(r, s, Arrive(al, now)))
  {
    AlertRefines(r, l.cur, s.cur, k, al, now);
    var f := OnAlert(r, l.cur, k, al, now).1;
    hide OnAlert, StandsFor, Timely, Arrived, Times, Bases, Escalations, All, Masked, EscalationTimes;
    Grown(s.past, s.cur, Arrived(r, s.cur, al, now), Times(f, 0), Times(f, 1));
    TimesConcat(l.fired, f, 0);
    TimesConcat(l.fired, f, 1);
    MaskedConcat(r, l.fired, f);
  }

  lemma ArriveSane(r: Rule, s: Story, al: Alert, now: nat)
    requires Begun(s) && (s.cur.Some? ==> Sane(r, s.cur.value)) && AllSane(r, s.past)
    ensures var s' := Tell(r, s, Arrive(al, now)); Sane(r, s'.cur.value) && AllSane(r, s'.past)
  {
    hide Sane, AllSane, Arrived;
    ArrivedSane(r, s.cur, al, now);
    if s.cur.Some? {
      SaneNext(r, s.past, s.cur.value);
    }
  }

  lemma AgreeArrive(r: Rule, k: Key, l: Life, s: Story, al: Alert, now: nat)
    requires Agree(r, l, s) && InTime(s.cur, now) && r.repeatN <= MAX_REPEAT && WellSized(l.cur) && Begun(s)
    ensures Agree(r, Step(r, k, l, Arrive(al, now)), Tell(r, s, Arrive(al, now)))
  {
    hide OnAlert, StandsFor, Timely, Arrived, RanAsTold, Sane, AllSane;
    AlertRefines(r, l.cur, s.cur, k, al, now);
    ArriveSane(r, s, al, now);
    ArriveRan(r, k, l, s, al, now);
  }

  lemma TickRan(r: Rule, k: Key, l: Life, s: Story, now: nat)
    requires Both(l.cur, s.cur) && RanAsTold(r, l, s) && InTime(s.cur, now) && WellSized(l.cur) && Begun(s) && s.cur.Some?
    ensures RanAsTold(r, Step(r, k, l, Tick(now)), Tell(r, s, Tick(now)))
  {
    var e, e' := s.cur.value, Ticked(r, s.cur.value, now);
    TickRefines(r, l.cur.value, e, now);
    var f := OnTick(r, l.cur.value, now).1;
    hide OnTick, StandsFor, Timely, Ticked, Times, Bases, Escalations, Masked, EscalationTimes;
    TimesConcat(l.fired, f, 0);
    TimesConcat(l.fired, f, 1);
    MaskedConcat(r, l.fired, f);
    Another(s.past, e);
    if e'.Some? {
      Another(s.past, e'.value);
    } else {
      assert All(Tell(r, s, Tick(now))) == All(s);
    }
  }

  lemma AgreeTick(r: Rule, k: Key, l: Life, s: Story, now: nat)
    requires Agree(r, l, s) && InTime(s.cur, now) && WellSized(l.cur) && Begun(s)
    ensures Agree(r, Step(r, k, l, Tick(now)), Tell(r, s, Tick(now)))
  {
    if s.cur.Some? {
      TickRefines(r, l.cur.value, s.cur.value, now);
      TickedSane(r, s.cur.value, now);
      TickRan(r, k, l, s, now);
      SaneNext(r, s.past, s.cur.value);
      hide OnTick, StandsFor, Timely, Ticked, Sane, AllSane, RanAsTold;
    }
  }

  lemma AgreeRest(r: Rule, k: Key, l: Life, s: Story, ev: Event)
    requires Agree(r, l, s) && WellSized(l.cur) && Begun(s) && (ev.Ack? || ev.Evict?)
    ensures Agree(r, Step(r, k, l, ev), Tell(r, s, ev))
  {
    hide StandsFor, Times, Bases, Escalations, Covers, Masked;
    if s.cur.Some? {
      Another(s.past, s.cur.value);
      if ev.Ack? {
        AckRefines(l.cur.value, s.cur.value, ev.upTo);
        Another(s.past, Acked(s.cur.value, ev.upTo));
        assert EscalationTimes(Acked(s.cur.value, ev.upTo)) == EscalationTimes(s.cur.value);
      } else {
        assert All(Tell(r, s, ev)) == All(s);
      }
    } else {
      assert All(Tell(r, s, ev)) == All(s);
    }
  }

  lemma StoryInTime(r: Rule, s: Story, ev: Event, clock: nat, now: nat)
    requires Begun(s) && InTime(s.cur, clock) && clock <= now < U64
    requires (ev.Arrive? || ev.Tick?) ==> ev.now == now
    ensures InTime(Tell(r, s, ev).cur, now) && InTime(s.cur, now)
  {
    if ev.Arrive? {
      ArrivedTimely(r, s.cur, ev.al, now);
    }
  }

  /**
   Every life of a key, over every sequence of alerts, ticks, acknowledgements and evictions: the incident stands
   for the current episode, every episode is sane, and the actions run are those of the episodes.
   */
  lemma {:induction false} LivesAreSane(r: Rule, k: Key, evs: seq<Event>)
    requires Chronological(evs) && r.repeatN <= MAX_REPEAT
    ensures Agree(r, Lived(r, k, evs), Told(r, evs)) && InTime(Told(r, evs).cur, Clock(evs))
  {
    if evs == [] {
      assert All(Told(r, evs)) == [];
    } else {
      var before, ev := evs[..|evs| - 1], evs[|evs| - 1];
      var l, s := Lived(r, k, before), Told(r, before);
      LivesAreSane(r, k, before);
      StoryInTime(r, s, ev, Clock(before), Clock(evs));
      hide Agree, Step, Tell, InTime;
      match ev
      case Arrive(al, now) => AgreeArrive(r, k, l, s, al, now);
      case Tick(now) => AgreeTick(r, k, l, s, now);
      case Ack(_) => AgreeRest(r, k, l, s, ev);
      case Evict => AgreeRest(r, k, l, s, ev);
    }
  }

  // ----- A repetition that is missed -----

  /** n arrivals, two seconds apart. */
  function Spread(al: Alert, n: nat): (evs: seq<Event>)
    ensures |evs| == n
  {
    if n == 0 then [] else Spread(al, n - 1) + [Arrive(al, 2 * (n - 1))]
  }

  function Evens(n: nat): (h: seq<nat>)
    ensures |h| == n && forall i :: 0 <= i < n ==> h[i] == 2 * i
  {
    seq(n, i => 2 * i)
  }

  lemma ToldNext(r: Rule, evs: seq<Event>, ev: Event)
    ensures Told(r, evs + [ev]) == Tell(r, Told(r, evs), ev)
  {
    assert (evs + [ev])[..|evs|] == evs;
  }

  /** One key, n arrivals, nothing escalated. */
  ghost predicate Calm(s: Story, n: nat) {
    s.past == [] && s.cur.Some? && s.cur.value.arrivals == Evens(n) && s.cur.value.escalations == [] && !s.cur.value.acked
  }

  lemma CalmBegins(r: Rule, al: Alert)
    requires r.repeatN == 2
    ensures Calm(Tell(r, Story(None, []), Arrive(al, 0)), 1)
  {
    assert [0] == Evens(1);
  }

  lemma CalmGoesOn(r: Rule, s: Story, al: Alert, n: nat)
    requires r.repeatN == 2 && r.window == 1 && n > 0 && Begun(s) && Calm(s, n)
    ensures Calm(Tell(r, s, Arrive(al, 2 * n)), n + 1)
  {
    var h := Evens(n) + [2 * n];
    assert h == Evens(n + 1);
    assert h[n] - h[n - 1] == 2;
  }

  lemma {:induction false} SpreadIsCalm(r: Rule, al: Alert, n: nat)
    requires r.repeatN == 2 && r.window == 1 && n > 0
    ensures Calm(Told(r, Spread(al, n)), n)
  {
    hide Calm, Tell;
    ToldNext(r, Spread(al, n - 1), Arrive(al, 2 * (n - 1)));
    if n > 1 {
      SpreadIsCalm(r, al, n - 1);
      CalmGoesOn(r, Told(r, Spread(al, n - 1)), al, n - 1);
    } else {
      CalmBegins(r, al);
    }
  }

  lemma OneLater(evs: seq<Event>, al: Alert, now: nat)
    requires Chronological(evs) && Clock(evs) <= now < U64
    ensures Chronological(evs + [Arrive(al, now)]) && Clock(evs + [Arrive(al, now)]) == now
  {
    assert (evs + [Arrive(al, now)])[..|evs|] == evs;
  }

  lemma {:induction false} SpreadInOrder(al: Alert, n: nat)
    requires n < U32
    ensures Chronological(Spread(al, n)) && Clock(Spread(al, n)) == if n == 0 then 0 else 2 * (n - 1)
  {
    if n > 0 {
      SpreadInOrder(al, n - 1);
      hide Chronological, Clock;
      OneLater(Spread(al, n - 1), al, 2 * (n - 1));
    }
  }

  /** One more arrival, a second after the last of 2^32 - 1. */
  lemma ClosesUnnoticed(r: Rule, s: Story, al: Alert)
    requires r.repeatN == 2 && r.window == 1 && Begun(s) && Calm(s, U32 - 1)
    ensures var s' := Tell(r, s, Arrive(al, 2 * (U32 - 2) + 1));
            && s'.past == [] && s'.cur.Some? && s'.cur.value.escalations == []
            && |s'.cur.value.arrivals| == U32 && Closes(r, s'.cur.value.arrivals)
  {
    var h := Evens(U32 - 1) + [2 * (U32 - 2) + 1];
    assert h[|h| - 1] - h[|h| - 2] == 1;
  }

  /** The last of 2^32 arrivals closes a repetition of two within a second, and then= is not run for it. */
  lemma MissedAtWrap(r: Rule, k: Key, al: Alert)
    requires r.repeatN == 2 && r.window == 1
    ensures var evs := Spread(al, U32 - 1) + [Arrive(al, 2 * (U32 - 2) + 1)];
            var e := Told(r, evs).cur;
            && Chronological(evs) && e.Some? && |e.value.arrivals| == U32 && Closes(r, e.value.arrivals)
            && Times(Lived(r, k, evs).fired, 1) == []
  {
    hide Told, Spread, Lived, Chronological, Clock, Tell, Closes, Calm, Sane, Both, InTime;
    var before, last := Spread(al, U32 - 1), 2 * (U32 - 2) + 1;
    var evs := before + [Arrive(al, last)];
    SpreadIsCalm(r, al, U32 - 1);
    SpreadInOrder(al, U32 - 1);
    OneLater(before, al, last);
    ToldNext(r, before, Arrive(al, last));
    ClosesUnnoticed(r, Told(r, before), al);
    LivesAreSane(r, k, evs);
    NothingEscalated(Told(r, evs));
  }

  lemma NothingEscalated(s: Story)
    requires s.past == [] && s.cur.Some? && s.cur.value.escalations == []
    ensures Escalations(All(s)) == []
  {
    Another([], s.cur.value);
    assert [] + [s.cur.value] == [s.cur.value];
  }
}

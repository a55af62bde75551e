/** The majority vote of the overflow handler. */
module Vote {
  /** The candidate and its counter. */
  datatype Ballot = Ballot(cand: int, cnt: int)

  /** One overflow in user mode of a task, the handler undisturbed. */
  function Voted(b: Ballot, tgid: int): Ballot {
    if b.cand == tgid then b.(cnt := b.cnt + 1)
    else if b.cnt <= 0 then Ballot(tgid, 1)
    else b.(cnt := b.cnt - 1)
  }

  function AllVoted(b: Ballot, votes: seq<int>): Ballot {
    if votes == [] then b else Voted(AllVoted(b, votes[..|votes| - 1]), votes[|votes| - 1])
  }

  function Count(votes: seq<int>, t: int): nat {
    if votes == [] then 0 else Count(votes[..|votes| - 1], t) + if votes[|votes| - 1] == t then 1 else 0
  }

  predicate Majority(votes: seq<int>, t: int) {
    2 * Count(votes, t) > |votes|
  }

  /** The counter bounds every task's lead: positively for the candidate, negatively for the others. */
  predicate LeadAtMost(b: Ballot, votes: seq<int>, t: int) {
    2 * Count(votes, t) - |votes| <= if b.cand == t then b.cnt else -b.cnt
  }

  lemma {:induction false} LeadBounded(b: Ballot, votes: seq<int>, t: int)
    requires b.cnt == 0
    ensures AllVoted(b, votes).cnt >= 0 && LeadAtMost(AllVoted(b, votes), votes, t)
  {
    if votes != [] {
      LeadBounded(b, votes[..|votes| - 1], t);
    }
  }

  /** A strict majority since the counter was zeroed is the candidate, whatever candidate was left over. */
  lemma MajorityWins(b: Ballot, votes: seq<int>, t: int)
    requires b.cnt == 0 && Majority(votes, t)
    ensures AllVoted(b, votes).cand == t
  {
    LeadBounded(b, votes, t);
  }

  // ----- The handler and the sampler, step by step -----

  /** Where the handler is with the overflow of a task: it has read the candidate, or the counter, or set the candidate. */
  datatype Pc = Idle | Same(tgid: int) | Other(tgid: int) | Empty(tgid: int) | Busy(tgid: int) | Chosen(tgid: int)

  datatype Race = Race(ballot: Ballot, pc: Pc)

  /** A step of the handler: an overflow begins, or the one under way goes on. */
  datatype Step = Begin(tgid: int) | Go

  function Next(r: Race, s: Step): Race {
    var b := r.ballot;
    match s
    case Begin(t) => if r.pc.Idle? then r.(pc := if b.cand == t then Same(t) else Other(t)) else r
    case Go =>
      match r.pc
      case Idle => r
      case Same(_) => Race(b.(cnt := b.cnt + 1), Idle)
      case Other(t) => r.(pc := if b.cnt <= 0 then Empty(t) else Busy(t))
      case Empty(t) => Race(b.(cand := t), Chosen(t))
      case Chosen(_) => Race(b.(cnt := 1), Idle)
      case Busy(_) => Race(b.(cnt := b.cnt - 1), Idle)
  }

  /** The sampler takes the candidate, and later zeroes the counter; both may land inside the handler. */
  function Taken(r: Race): (Race, int) { (r.(ballot := r.ballot.(cand := 0)), r.ballot.cand) }

  function Zeroed(r: Race): Race { r.(ballot := r.ballot.(cnt := 0)) }

  function Raced(r: Race, steps: seq<Step>): Race {
    if steps == [] then r else Next(Raced(r, steps[..|steps| - 1]), steps[|steps| - 1])
  }

  /** The votes whose counting the handler finished in these steps. */
  function Finished(r: Race, steps: seq<Step>): seq<int> {
    if steps == [] then []
    else
      var before, s := Raced(r, steps[..|steps| - 1]), steps[|steps| - 1];
      Finished(r, steps[..|steps| - 1]) +
      if s.Go? && !before.pc.Idle? && Next(before, s).pc.Idle? then [before.pc.tgid] else []
  }

  /** The votes the handler began in these steps. */
  function Begun(r: Race, steps: seq<Step>): seq<int> {
    if steps == [] then []
    else
      var before, s := Raced(r, steps[..|steps| - 1]), steps[|steps| - 1];
      Begun(r, steps[..|steps| - 1]) + if s.Begin? && before.pc.Idle? then [s.tgid] else []
  }

  predicate Quiet(r: Race) { r.pc.Idle? }

  // ----- Votes counted when finished -----

  /** From here on, whenever the sampler takes the candidate it takes the strict majority of the votes finished, if there is one. */
  ghost predicate Keeps(r: Race) {
    forall steps, t :: Majority(Finished(r, steps), t) ==> Taken(Raced(r, steps)).1 == t
  }

  /** A zeroing does no harm here: the handler is not about to take one off the counter, nor to add one for a candidate that was taken. */
  predicate ZeroSafe(r: Race) {
    match r.pc
    case Busy(_) => false
    case Same(t) => r.ballot.cand == t
    case Chosen(t) => r.ballot.cand == t
    case _ => true
  }

  /** What holds between any two steps of the handler after a harmless zeroing. */
  ghost predicate Sound(r: Race, votes: seq<int>) {
    var b := r.ballot;
    && b.cnt >= 0
    && match r.pc
       case Idle => forall t :: LeadAtMost(b, votes, t)
       case Same(u) => b.cand == u && forall t :: LeadAtMost(b, votes, t)
       case Other(u) => (b.cand != u || b.cnt == 0) && forall t :: LeadAtMost(b, votes, t)
       case Empty(_) => b.cnt == 0 && forall t :: LeadAtMost(b, votes, t)
       case Busy(u) => b.cand != u && b.cnt > 0 && forall t :: LeadAtMost(b, votes, t)
       // the candidate is already the new one: the finished votes have no majority
       case Chosen(u) => b.cand == u && b.cnt == 0 && forall t :: !Majority(votes, t)
  }

  lemma CountNext(votes: seq<int>, u: int, t: int)
    ensures Count(votes + [u], t) == Count(votes, t) + if u == t then 1 else 0
  {
    assert (votes + [u])[..|votes|] == votes;
  }

  lemma SoundBegins(r: Race, votes: seq<int>, u: int)
    requires Sound(r, votes)
    ensures Sound(Next(r, Begin(u)), votes)
  {
  }

  lemma SoundGoes(r: Race, votes: seq<int>)
    requires Sound(r, votes)
    ensures var r' := Next(r, Go);
            Sound(r', votes + if !r.pc.Idle? && r'.pc.Idle? then [r.pc.tgid] else [])
  {
    hide Count;
    var r' := Next(r, Go);
    if !r.pc.Idle? && r'.pc.Idle? {
      forall t
        ensures LeadAtMost(r'.ballot, votes + [r.pc.tgid], t)
      {
        CountNext(votes, r.pc.tgid, t);
        assert r.pc.Chosen? ==> !Majority(votes, t);
        assert !r.pc.Chosen? ==> LeadAtMost(r.ballot, votes, t);
      }
    } else {
      assert votes + [] == votes;
      if r.pc.Empty? {
        forall t
          ensures !Majority(votes, t)
        {
          assert LeadAtMost(r.ballot, votes, t);
        }
      }
    }
  }

  lemma {:induction false} SoundRuns(r: Race, steps: seq<Step>)
    requires Sound(r, [])
    ensures Sound(Raced(r, steps), Finished(r, steps))
  {
    if steps != [] {
      var before, s := steps[..|steps| - 1], steps[|steps| - 1];
      SoundRuns(r, before);
      hide Sound;
      match s
      case Begin(u) =>
        SoundBegins(Raced(r, before), Finished(r, before), u);
        assert Finished(r, before) + [] == Finished(r, before);
      case Go => SoundGoes(Raced(r, before), Finished(r, before));
    }
  }

  lemma SoundTakes(r: Race, votes: seq<int>, t: int)
    requires Sound(r, votes) && Majority(votes, t)
    ensures r.ballot.cand == t
  {
    assert !r.pc.Chosen? ==> LeadAtMost(r.ballot, votes, t);
  }

  lemma OneStep(r: Race, s: Step)
    ensures Raced(r, [s]) == Next(r, s)
    ensures Finished(r, [s]) == if s.Go? && !r.pc.Idle? && Next(r, s).pc.Idle? then [r.pc.tgid] else []
    ensures Begun(r, [s]) == if s.Begin? && r.pc.Idle? then [s.tgid] else []
  {
    assert [s][..0] == [];
  }

  lemma Extend(r: Race, steps: seq<Step>, s: Step)
    ensures var before := Raced(r, steps);
            && Raced(r, steps + [s]) == Next(before, s)
            && Finished(r, steps + [s]) ==
               Finished(r, steps) + (if s.Go? && !before.pc.Idle? && Next(before, s).pc.Idle? then [before.pc.tgid] else [])
            && Begun(r, steps + [s]) == Begun(r, steps) + (if s.Begin? && before.pc.Idle? then [s.tgid] else [])
  {
    assert (steps + [s])[..|steps|] == steps;
  }

  /** A whole overflow, from between two of them to between two of them. */
  function Whole(b: Ballot, u: int): seq<Step> {
    if b.cand == u then [Begin(u), Go] else if b.cnt > 0 then [Begin(u), Go, Go] else [Begin(u), Go, Go, Go]
  }

  /** It counts as one undisturbed vote. */
  lemma WholeVotes(r: Race, steps: seq<Step>, u: int)
    requires Quiet(Raced(r, steps))
    ensures var b := Raced(r, steps).ballot;
            var more := steps + Whole(b, u);
            && Raced(r, more) == Race(Voted(b, u), Idle)
            && Finished(r, more) == Finished(r, steps) + [u] && Begun(r, more) == Begun(r, steps) + [u]
  {
    hide Raced, Finished, Begun;
    var b := Raced(r, steps).ballot;
    var s1 := steps + [Begin(u)];
    Extend(r, steps, Begin(u));
    Extend(r, s1, Go);
    if b.cand == u {
      assert steps + Whole(b, u) == s1 + [Go];
    } else {
      var s2 := s1 + [Go];
      Extend(r, s2, Go);
      if b.cnt > 0 {
        assert steps + Whole(b, u) == s2 + [Go];
      } else {
        Extend(r, s2 + [Go], Go);
        assert steps + Whole(b, u) == s2 + [Go] + [Go];
      }
    }
  }

  lemma MajorityOfOne(u: int)
    ensures Majority([u], u)
  {
    assert [u][..0] == [];
  }

  lemma MajorityOfThree(u: int, v: int)
    ensures Majority([u, v, u], u)
  {
    hide Count;
    CountNext([], u, u);
    CountNext([u], v, u);
    CountNext([u, v], u, u);
    assert [] + [u] == [u] && [u] + [v] == [u, v] && [u, v] + [u] == [u, v, u];
  }

  /** Two more overflows, of another task and of u, from a counter below zero. */
  lemma OverruledByTwo(z: Race, s: seq<Step>, u: int)
    requires Raced(z, s) == Race(Ballot(u, -1), Idle) && Finished(z, s) == [u]
    ensures !Keeps(z)
  {
    hide Raced, Finished, Begun, Majority;
    var v := u + 1;
    WholeVotes(z, s, v);
    var s2 := s + Whole(Ballot(u, -1), v);
    WholeVotes(z, s2, u);
    var s3 := s2 + Whole(Ballot(v, 1), u);
    assert [u] + [v] + [u] == [u, v, u];
    MajorityOfThree(u, v);
    assert Majority(Finished(z, s3), u) && Taken(Raced(z, s3)).1 == v;
  }

  /** A handler about to take one off a zeroed counter makes a later vote overrule the majority. */
  lemma BusyLoses(r: Race)
    requires r.pc.Busy?
    ensures !Keeps(Zeroed(r))
  {
    var z, u := Zeroed(r), r.pc.tgid;
    OneStep(z, Go);
    MajorityOfOne(u);
    hide Raced, Finished, Begun, Majority, Keeps;
    if r.ballot.cand == u {
      OverruledByTwo(z, [Go], u);
    } else {
      Overruled(z, [Go], u);
    }
  }

  lemma Overruled(z: Race, s: seq<Step>, u: int)
    requires Majority(Finished(z, s), u) && Raced(z, s).ballot.cand != u
    ensures !Keeps(z)
  {
    assert Taken(Raced(z, s)).1 != u;
  }

  /** For every state of the race: the zeroing keeps the guarantee for every continuation exactly at the safe places. */
  lemma ZeroExactly(r: Race)
    ensures Keeps(Zeroed(r)) <==> ZeroSafe(r)
  {
    var z := Zeroed(r);
    if ZeroSafe(r) {
      assert Sound(z, []);
      forall steps, t | Majority(Finished(z, steps), t)
        ensures Taken(Raced(z, steps)).1 == t
      {
        SoundRuns(z, steps);
        SoundTakes(Raced(z, steps), Finished(z, steps), t);
      }
    } else if r.pc.Busy? {
      BusyLoses(r);
    } else {
      OneStep(z, Go);
      MajorityOfOne(r.pc.tgid);
      Overruled(z, [Go], r.pc.tgid);
    }
  }

  /** The unsafe places are reached by any overflow that meets another candidate with a positive counter. */
  lemma UnsafeReached(b: Ballot, u: int)
    requires b.cnt > 0 && b.cand != u
    ensures !ZeroSafe(Raced(Race(b, Idle), [Begin(u), Go]))
  {
    OneStep(Race(b, Idle), Begin(u));
    Extend(Race(b, Idle), [Begin(u)], Go);
    assert [Begin(u)] + [Go] == [Begin(u), Go];
  }

  // ----- Votes counted from their beginning -----

  /** From here on, between two overflows, the candidate is the strict majority of the votes begun, if there is one. */
  ghost predicate KeepsBegun(r: Race) {
    forall steps, t :: Quiet(Raced(r, steps)) && Majority(Begun(r, steps), t) ==> Taken(Raced(r, steps)).1 == t
  }

  /** What a handler under way makes of a zeroed ballot. */
  function Ended(b: Ballot, pc: Pc): Ballot {
    match pc
    case Idle => b
    case Same(_) => b.(cnt := b.cnt + 1)
    case Busy(_) => b.(cnt := b.cnt - 1)
    case Chosen(_) => b.(cnt := 1)
    case Empty(t) => Ballot(t, 1)
    case Other(t) => if b.cnt <= 0 then Ballot(t, 1) else b.(cnt := b.cnt - 1)
  }

  /** It ends after at most three steps without having begun another. */
  lemma Ends(r: Race) returns (steps: seq<Step>)
    ensures Raced(r, steps) == Race(Ended(r.ballot, r.pc), Idle) && Begun(r, steps) == []
  {
    hide Raced, Finished, Begun;
    steps := [];
    RacedNone(r);
    if !r.pc.Idle? {
      Extend(r, [], Go);
      Extend(r, [Go], Go);
      Extend(r, [Go, Go], Go);
      assert [] + [Go] == [Go] && [Go] + [Go] == [Go, Go] && [Go, Go] + [Go] == [Go, Go, Go];
      if r.pc.Other? && r.ballot.cnt <= 0 {
        steps := [Go, Go, Go];
      } else if r.pc.Empty? || r.pc.Other? {
        steps := [Go, Go];
      } else {
        steps := [Go];
      }
    }
  }

  lemma RacedNone(r: Race)
    ensures Raced(r, []) == r && Begun(r, []) == []
  {
  }

  /** Counted that way, the zeroing keeps the guarantee exactly between two overflows. */
  lemma ZeroBegunExactly(r: Race)
    ensures KeepsBegun(Zeroed(r)) <==> Quiet(r)
  {
    var z := Zeroed(r);
    if Quiet(r) {
      forall steps, t | Quiet(Raced(z, steps)) && Majority(Begun(z, steps), t)
        ensures Taken(Raced(z, steps)).1 == t
      {
        QuietMeansFinished(z, steps);
        assert Finished(z, steps) + [] == Finished(z, steps);
        SoundRuns(z, steps);
        SoundTakes(Raced(z, steps), Finished(z, steps), t);
      }
    } else {
      OverruledAfter(z);
    }
  }

  /** The votes begun are those finished and the one under way. */
  lemma {:induction false} QuietMeansFinished(r: Race, steps: seq<Step>)
    requires Quiet(r)
    ensures Begun(r, steps) == Finished(r, steps) + if Quiet(Raced(r, steps)) then [] else [Raced(r, steps).pc.tgid]
  {
    if steps != [] {
      QuietMeansFinished(r, steps[..|steps| - 1]);
    }
  }

  lemma OverruledAfter(z: Race)
    requires !Quiet(z) && z.ballot.cnt == 0
    ensures !KeepsBegun(z)
  {
    hide Raced, Finished, Begun, Majority, Count;
    var s0 := Ends(z);
    var b := Raced(z, s0).ballot;
    if b.cnt > 0 {
      var v := b.cand + 1;
      WholeVotes(z, s0, v);
      MajorityOfOne(v);
      var s1 := s0 + Whole(b, v);
      assert [] + [v] == [v];
      assert Taken(Raced(z, s1)).1 != v && Begun(z, s1) == [v];
    } else {
      var u, v := b.cand, b.cand + 1;
      WholeVotes(z, s0, u);
      var s1 := s0 + Whole(b, u);
      WholeVotes(z, s1, v);
      var s2 := s1 + Whole(Raced(z, s1).ballot, v);
      WholeVotes(z, s2, u);
      var s3 := s2 + Whole(Raced(z, s2).ballot, u);
      MajorityOfThree(u, v);
      assert Begun(z, s3) == [u, v, u];
      assert Taken(Raced(z, s3)).1 == v;
    }
  }
}

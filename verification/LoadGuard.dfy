/** The queue, the semaphore and the shutdown as steps of callbacks, worker and unloading thread. */
module LoadGuard {
  import opened LoadQueue

  /** Where a callback is. */
  datatype Pc = Idle | Entered(path: Path) | Checked(path: Path) | Queued | Full | Leaving

  datatype Worker = Waiting | Woken | Done

  /** Where unloading is: the flag cleared, callbacks waited for, the stop event set, the worker gone, all freed. */
  datatype Unload = Up | Closing | Drained | GaveUp | Stopping | Joined | Freed

  /** The queue's memory: there, the pointer cleared, or freed. */
  datatype Memory = Live | Cleared | Gone

  datatype Sys = Sys(contents: seq<Path>, permits: nat, dropped: nat, inFlight: nat, running: bool, memory: Memory,
                     stop: bool, buffer: bool, worker: Worker, unload: Unload, callbacks: seq<Pc>,
                     queued: seq<Path>, processed: seq<Path>, passed: nat, idleWakes: nat, leaked: nat, fault: bool)

  datatype Step =
    | Call(t: nat, path: Path)       // a callback begins
    | Advance(t: nat)                // a callback takes its next step
    | Wait                           // the worker takes a permit
    | Take                           // the worker dequeues
    | Halt                           // the worker sees the stop event
    | Close | Drain | GiveUp | SetStop | Join | Free   // unloading

  predicate Enabled(s: Sys, step: Step) {
    match step
    case Call(t, _) => t < |s.callbacks| && s.callbacks[t].Idle?
    case Advance(t) => t < |s.callbacks| && !s.callbacks[t].Idle?
    case Wait => s.worker.Waiting? && s.permits > 0
    case Take => s.worker.Woken?
    case Halt => s.worker.Waiting? && s.stop
    case Close => s.unload.Up?
    case Drain => s.unload.Closing? && s.inFlight == 0
    case GiveUp => s.unload.Closing? && s.inFlight != 0
    case SetStop => s.unload.Drained? || s.unload.GaveUp?
    case Join => s.unload.Stopping? && s.worker.Done?
    case Free => s.unload.Joined?
  }

  function Moved(s: Sys, t: nat, pc: Pc): Sys
    requires t < |s.callbacks|
  {
    s.(callbacks := s.callbacks[t := pc])
  }

  /** A callback's next step. */
  function Advanced(s: Sys, t: nat): Sys
    requires t < |s.callbacks| && !s.callbacks[t].Idle?
  {
    match s.callbacks[t]
    case Entered(path) =>
      if s.running && !s.memory.Cleared? then Moved(s.(passed := s.passed + 1), t, Checked(path)) else Moved(s, t, Leaving)
    case Checked(path) =>
      if |s.contents| >= SIZE then Moved(s, t, Full)
      else if !s.memory.Live? then s.(fault := true)
      else Moved(s.(contents := s.contents + [Cut(path)], queued := s.queued + [Cut(path)]), t, Queued)
    case Queued => Moved(s.(permits := s.permits + 1), t, Leaving)
    case Full => Moved(s.(dropped := s.dropped + 1), t, Leaving)
    case Leaving => Moved(s.(inFlight := if s.inFlight > 0 then s.inFlight - 1 else 0), t, Idle)
  }

  function Taken(s: Sys): Sys {
    if !s.buffer then s.(worker := Waiting, leaked := s.leaked + 1)
    else if s.contents == [] then s.(worker := Waiting, idleWakes := s.idleWakes + 1)
    else if !s.memory.Live? then s.(fault := true)
    else s.(worker := Waiting, contents := s.contents[1..], processed := s.processed + [s.contents[0]])
  }

  function Next(s: Sys, step: Step): Sys
    requires Enabled(s, step)
  {
    match step
    case Call(t, path) => Moved(s.(inFlight := s.inFlight + 1), t, Entered(path))
    case Advance(t) => Advanced(s, t)
    case Wait => s.(permits := s.permits - 1, worker := Woken)
    case Take => Taken(s)
    case Halt => s.(worker := Done)
    case Close => s.(running := false, unload := Closing)
    case Drain => s.(unload := Drained)
    case GiveUp => s.(memory := Cleared, unload := GaveUp)
    case SetStop => s.(stop := true, unload := Stopping)
    case Join => s.(unload := Joined)
    case Free => s.(unload := Freed, memory := if s.memory.Live? then Gone else s.memory)
  }

  // ----- Counting callbacks -----

  function Total(cs: seq<Pc>, w: Pc -> nat): nat {
    if cs == [] then 0 else w(cs[0]) + Total(cs[1..], w)
  }

  lemma {:induction false} TotalUpdate(cs: seq<Pc>, t: nat, pc: Pc, w: Pc -> nat)
    requires t < |cs|
    ensures Total(cs[t := pc], w) + w(cs[t]) == Total(cs, w) + w(pc)
  {
    if t == 0 {
      assert cs[0 := pc][1..] == cs[1..];
    } else {
      TotalUpdate(cs[1..], t - 1, pc, w);
      assert cs[t := pc][1..] == cs[1..][t - 1 := pc];
    }
  }

  lemma {:induction false} TotalZero(cs: seq<Pc>, w: Pc -> nat)
    requires forall i :: 0 <= i < |cs| ==> w(cs[i]) == 0
    ensures Total(cs, w) == 0
  {
    if cs != [] {
      assert w(cs[0]) == 0;
      TotalZero(cs[1..], w);
    }
  }

  lemma {:induction false} TotalSome(cs: seq<Pc>, w: Pc -> nat, t: nat)
    requires t < |cs|
    ensures Total(cs, w) >= w(cs[t])
  {
    if t > 0 {
      TotalSome(cs[1..], w, t - 1);
    }
  }

  function Busy(pc: Pc): nat { if pc.Idle? then 0 else 1 }
  function Unreleased(pc: Pc): nat { if pc.Queued? then 1 else 0 }
  function Undecided(pc: Pc): nat { if pc.Checked? || pc.Full? then 1 else 0 }
  function Looking(pc: Pc): nat { if pc.Checked? then 1 else 0 }

  // ----- The invariant -----

  /** Every queued path is accounted for by a permit, a callback about to release one, or a worker that took one. */
  ghost predicate PermitsOk(s: Sys) {
    && |s.contents| <= SIZE && s.idleWakes == 0
    && |s.contents| == s.permits + Total(s.callbacks, Unreleased) + (if s.worker.Woken? then 1 else 0) + s.leaked
  }

  ghost predicate BooksOk(s: Sys) {
    && s.queued == s.processed + s.contents
    && s.passed == |s.queued| + s.dropped + Total(s.callbacks, Undecided)
    && s.inFlight == Total(s.callbacks, Busy)
  }

  /** Once unloading has seen no callback in flight, none is near the queue; memory goes only after the worker. */
  ghost predicate UnloadOk(s: Sys) {
    && (s.running <==> s.unload.Up?)
    && (s.memory.Gone? ==> s.unload.Freed?)
    && ((s.unload.Joined? || s.unload.Freed?) ==> s.worker.Done?)
    && (s.unload.Drained? ==> s.memory.Live?)
    && (s.memory.Live? && !s.unload.Up? && !s.unload.Closing? ==> Total(s.callbacks, Looking) == 0)
    && (s.memory.Gone? ==> Total(s.callbacks, Looking) == 0)
    && ((s.unload.Up? || s.unload.Closing?) ==> s.memory.Live?)
    && (s.unload.Freed? ==> !s.memory.Live?)
    && (!s.memory.Cleared? ==> !s.fault)
    && (s.worker.Done? ==> s.stop) && (s.stop ==> s.unload.Stopping? || s.unload.Joined? || s.unload.Freed?)
    && (s.buffer ==> s.leaked == 0)
  }

  ghost predicate Inv(s: Sys) {
    PermitsOk(s) && BooksOk(s) && UnloadOk(s)
  }

  ghost predicate Init(s: Sys) {
    && s.contents == [] && s.permits == 0 && s.dropped == 0 && s.inFlight == 0 && s.running && s.memory.Live?
    && !s.stop && s.worker.Waiting? && s.unload.Up? && s.queued == [] && s.processed == [] && s.passed == 0
    && s.idleWakes == 0 && s.leaked == 0 && !s.fault
    && forall i :: 0 <= i < |s.callbacks| ==> s.callbacks[i].Idle?
  }

  lemma InitInv(s: Sys)
    requires Init(s)
    ensures Inv(s)
  {
    TotalZero(s.callbacks, Unreleased);
    TotalZero(s.callbacks, Undecided);
    TotalZero(s.callbacks, Busy);
    TotalZero(s.callbacks, Looking);
  }

  /** How a callback's step to pc changes each of the counts. */
  lemma FourCounts(s: Sys, t: nat, pc: Pc)
    requires t < |s.callbacks|
    ensures Total(s.callbacks[t := pc], Unreleased) + Unreleased(s.callbacks[t]) == Total(s.callbacks, Unreleased) + Unreleased(pc)
    ensures Total(s.callbacks[t := pc], Undecided) + Undecided(s.callbacks[t]) == Total(s.callbacks, Undecided) + Undecided(pc)
    ensures Total(s.callbacks[t := pc], Busy) + Busy(s.callbacks[t]) == Total(s.callbacks, Busy) + Busy(pc)
    ensures Total(s.callbacks[t := pc], Looking) + Looking(s.callbacks[t]) == Total(s.callbacks, Looking) + Looking(pc)
  {
    TotalUpdate(s.callbacks, t, pc, Unreleased);
    TotalUpdate(s.callbacks, t, pc, Undecided);
    TotalUpdate(s.callbacks, t, pc, Busy);
    TotalUpdate(s.callbacks, t, pc, Looking);
  }

  function Target(s: Sys, t: nat): Pc
    requires t < |s.callbacks| && !s.callbacks[t].Idle?
  {
    match s.callbacks[t]
    case Entered(path) => if s.running && !s.memory.Cleared? then Checked(path) else Leaving
    case Checked(_) => if |s.contents| < SIZE then Queued else Full
    case Leaving => Idle
    case _ => Leaving
  }

  lemma AdvanceInv(s: Sys, t: nat)
    requires Inv(s) && t < |s.callbacks| && !s.callbacks[t].Idle?
    ensures Inv(Advanced(s, t))
  {
    hide Total;
    FourCounts(s, t, Target(s, t));
    LookingOne(s, t);
    BusyOne(s, t);
    if s.callbacks[t].Checked? && s.memory.Live? && |s.contents| < SIZE {
      assert s.processed + (s.contents + [Cut(s.callbacks[t].path)]) == s.processed + s.contents + [Cut(s.callbacks[t].path)];
    }
  }

  lemma LookingOne(s: Sys, t: nat)
    requires t < |s.callbacks|
    ensures s.callbacks[t].Checked? ==> Total(s.callbacks, Looking) > 0
  {
    TotalSome(s.callbacks, Looking, t);
  }

  lemma BusyOne(s: Sys, t: nat)
    requires t < |s.callbacks|
    ensures !s.callbacks[t].Idle? ==> Total(s.callbacks, Busy) > 0
  {
    TotalSome(s.callbacks, Busy, t);
  }

  lemma {:induction false} LookersAreBusy(cs: seq<Pc>)
    ensures Total(cs, Looking) <= Total(cs, Busy)
  {
    if cs != [] {
      LookersAreBusy(cs[1..]);
    }
  }

  lemma NextInv(s: Sys, step: Step)
    requires Inv(s) && Enabled(s, step)
    ensures Inv(Next(s, step))
  {
    match step {
      case Call(t, path) =>
        FourCounts(s, t, Entered(path));
        hide Total;
      case Advance(t) =>
        AdvanceInv(s, t);
        hide Inv, Advanced;
      case Take =>
        assert s.contents != [] ==> s.processed + [s.contents[0]] + s.contents[1..] == s.processed + s.contents;
        hide Total;
      case Drain =>
        LookersAreBusy(s.callbacks);
        hide Total;
      case _ => hide Total;
    }
  }

  // ----- Every run -----

  ghost predicate Behavior(ss: seq<Sys>, steps: seq<Step>) {
    && |ss| == |steps| + 1 && Init(ss[0])
    && forall i :: 0 <= i < |steps| ==> Enabled(ss[i], steps[i]) && ss[i + 1] == Next(ss[i], steps[i])
  }

  lemma {:induction false} Always(ss: seq<Sys>, steps: seq<Step>, i: nat)
    requires Behavior(ss, steps) && i < |ss|
    ensures Inv(ss[i])
  {
    hide Inv, Init, Next, Enabled;
    if i == 0 {
      InitInv(ss[0]);
    } else {
      Always(ss, steps, i - 1);
      assert ss[i] == Next(ss[i - 1], steps[i - 1]);
      NextInv(ss[i - 1], steps[i - 1]);
    }
  }

  /** Permits never exceed the queued paths, nor those the limit of the semaphore; a woken worker finds a path. */
  lemma SemaphoreSound(ss: seq<Sys>, steps: seq<Step>, i: nat)
    requires Behavior(ss, steps) && i < |ss|
    ensures ss[i].permits <= |ss[i].contents| <= SIZE
    ensures ss[i].worker.Woken? ==> ss[i].contents != []
    ensures forall t :: 0 <= t < |ss[i].callbacks| && ss[i].callbacks[t].Queued? ==> ss[i].permits + 1 <= SIZE
  {
    hide Behavior;
    Always(ss, steps, i);
    forall t | 0 <= t < |ss[i].callbacks| && ss[i].callbacks[t].Queued?
      ensures ss[i].permits + 1 <= SIZE
    {
      TotalSome(ss[i].callbacks, Unreleased, t);
    }
  }

  /** Paths are processed in the order they were queued, and each one at most once. */
  lemma ProcessedInOrder(ss: seq<Sys>, steps: seq<Step>, i: nat)
    requires Behavior(ss, steps) && i < |ss|
    ensures |ss[i].processed| <= |ss[i].queued| && ss[i].processed == ss[i].queued[..|ss[i].processed|]
  {
    hide Behavior;
    Always(ss, steps, i);
  }

  /** With no callback in the middle, queued and dropped paths are the callbacks that saw the guard running. */
  lemma NothingLost(ss: seq<Sys>, steps: seq<Step>, i: nat)
    requires Behavior(ss, steps) && i < |ss|
    requires forall t :: 0 <= t < |ss[i].callbacks| ==> !ss[i].callbacks[t].Checked? && !ss[i].callbacks[t].Full?
    ensures |ss[i].queued| + ss[i].dropped == ss[i].passed
  {
    hide Behavior;
    Always(ss, steps, i);
    TotalZero(ss[i].callbacks, Undecided);
  }

  /** Unless unloading gave up waiting for a callback, nobody ever touches a queue that is not there. */
  lemma NoFault(ss: seq<Sys>, steps: seq<Step>, i: nat)
    requires Behavior(ss, steps) && i < |ss| && !ss[i].memory.Cleared?
    ensures !ss[i].fault
  {
    hide Behavior;
    Always(ss, steps, i);
  }

  // ----- Giving up -----

  predicate CanRun(s: Sys, steps: seq<Step>)
    decreases |steps|
  {
    steps == [] || (Enabled(s, steps[0]) && CanRun(Next(s, steps[0]), steps[1..]))
  }

  function RunTo(s: Sys, steps: seq<Step>): Sys
    requires CanRun(s, steps)
    decreases |steps|
  {
    if steps == [] then s else RunTo(Next(s, steps[0]), steps[1..])
  }

  ghost predicate NeverFaults(s: Sys) {
    forall steps: seq<Step> :: CanRun(s, steps) ==> !RunTo(s, steps).fault
  }

  /**
   No callback has passed the check without having used the queue, or the queue is full for good because the worker
   has no buffer to dequeue into; and nothing is left for a worker that has one.
   */
  ghost predicate Detached(s: Sys) {
    && (Total(s.callbacks, Looking) == 0 || (!s.buffer && |s.contents| == SIZE))
    && (s.buffer ==> s.contents == [])
  }

  ghost predicate Harmless(s: Sys) {
    !s.running && s.memory.Cleared? && !s.fault && Detached(s)
  }

  lemma HarmlessStays(s: Sys, step: Step)
    requires Harmless(s) && Enabled(s, step)
    ensures Harmless(Next(s, step))
  {
    match step {
      case Call(t, path) =>
        FourCounts(s, t, Entered(path));
        hide Total;
      case Advance(t) =>
        FourCounts(s, t, Target(s, t));
        LookingOne(s, t);
        hide Total;
      case _ => hide Total;
    }
  }

  lemma {:induction false} HarmlessRuns(s: Sys, steps: seq<Step>)
    requires Harmless(s) && CanRun(s, steps)
    ensures !RunTo(s, steps).fault
    decreases |steps|
  {
    if steps != [] {
      HarmlessStays(s, steps[0]);
      HarmlessRuns(Next(s, steps[0]), steps[1..]);
    }
  }

  lemma {:induction false} SomeOne(cs: seq<Pc>, w: Pc -> nat) returns (t: nat)
    requires Total(cs, w) > 0
    ensures t < |cs| && w(cs[t]) > 0
  {
    if w(cs[0]) > 0 {
      t := 0;
    } else {
      var u := SomeOne(cs[1..], w);
      t := u + 1;
    }
  }

  lemma FaultsAt(s: Sys, step: Step)
    requires Enabled(s, step) && Next(s, step).fault
    ensures !NeverFaults(s)
  {
    assert [step][1..] == [];
    assert CanRun(Next(s, step), []);
    assert CanRun(s, [step]) && RunTo(s, [step]).fault;
  }

  lemma FaultsLater(s: Sys, step: Step)
    requires Enabled(s, step) && !NeverFaults(Next(s, step))
    ensures !NeverFaults(s)
  {
    var rest: seq<Step> :| CanRun(Next(s, step), rest) && RunTo(Next(s, step), rest).fault;
    assert ([step] + rest)[1..] == rest;
    assert CanRun(s, [step] + rest) && RunTo(s, [step] + rest).fault;
  }

  /** With the pointer cleared, a worker that still has a path to fetch runs into it. */
  lemma WorkerFaults(s: Sys)
    requires PermitsOk(s) && s.memory.Cleared? && s.buffer && s.leaked == 0 && s.contents != [] && !s.worker.Done?
    ensures !NeverFaults(s)
  {
    hide Total, NeverFaults;
    if s.worker.Woken? {
      FaultsAt(s, Take);
    } else if s.permits > 0 {
      FaultsAt(Next(s, Wait), Take);
      FaultsLater(s, Wait);
    } else {
      var t := SomeOne(s.callbacks, Unreleased);
      var s1 := Next(s, Advance(t));
      FaultsAt(Next(s1, Wait), Take);
      FaultsLater(s1, Wait);
      FaultsLater(s, Advance(t));
    }
  }

  /** Giving up is harmless exactly when nobody is left who will use the queue: no callback, no worker. */
  lemma GivingUp(s: Sys)
    requires Inv(s) && Enabled(s, GiveUp)
    ensures NeverFaults(Next(s, GiveUp)) <==> Detached(s)
  {
    var g := Next(s, GiveUp);
    NextInv(s, GiveUp);
    if Detached(s) {
      assert Harmless(g);
      hide Harmless;
      forall steps: seq<Step> | CanRun(g, steps)
        ensures !RunTo(g, steps).fault
      {
        HarmlessRuns(g, steps);
      }
    } else if s.buffer && s.contents != [] {
      WorkerFaults(g);
    } else {
      var t := SomeOne(s.callbacks, Looking);
      FaultsAt(g, Advance(t));
    }
  }

  /** It does happen: a callback passes the check, unloading starts and gives up, the callback goes on. */
  lemma GivingUpCanFault(s: Sys, path: Path)
    requires Init(s) && |s.callbacks| == 1
    ensures CanRun(s, [Call(0, path), Advance(0), Close, GiveUp, Advance(0)])
    ensures RunTo(s, [Call(0, path), Advance(0), Close, GiveUp, Advance(0)]).fault
  {
    var s1 := Next(s, Call(0, path));
    var s2 := Next(s1, Advance(0));
    var s3 := Next(s2, Close);
    var s4 := Next(s3, GiveUp);
    var s5 := Next(s4, Advance(0));
    assert s5.fault;
    assert [Advance(0)][1..] == [] && [GiveUp, Advance(0)][1..] == [Advance(0)];
    assert [Close, GiveUp, Advance(0)][1..] == [GiveUp, Advance(0)];
    assert [Advance(0), Close, GiveUp, Advance(0)][1..] == [Close, GiveUp, Advance(0)];
    assert [Call(0, path), Advance(0), Close, GiveUp, Advance(0)][1..] == [Advance(0), Close, GiveUp, Advance(0)];
    assert CanRun(s5, []) && RunTo(s5, []) == s5;
    assert CanRun(s4, [Advance(0)]) && RunTo(s4, [Advance(0)]) == s5;
    assert CanRun(s3, [GiveUp, Advance(0)]) && RunTo(s3, [GiveUp, Advance(0)]) == s5;
    assert CanRun(s2, [Close, GiveUp, Advance(0)]) && RunTo(s2, [Close, GiveUp, Advance(0)]) == s5;
    assert CanRun(s1, [Advance(0), Close, GiveUp, Advance(0)]);
  }
}

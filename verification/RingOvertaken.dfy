/** An honest writer a whole lap of the 32-bit numbers ahead is taken for a tamperer. */
module RingOvertaken {
  import opened AlertRing
  import opened RingReader
  import opened RingMonitor
  import opened RingTorn

  /** One notification is out when the reader opens the ring, 2^32 of them at every later load. */
  ghost predicate Overtaken(mac: Mac, trace: Trace) {
    && Honest(mac, trace)
    && Published(trace(0)) == 1 && Published(trace(1)) == WRAP && trace(1).writer.Idle?
    && forall t: nat :: t >= 1 ==> trace(t) == trace(1)
  }

  lemma ReachesSelf(mac: Mac, s: Sys)
    ensures Reaches(mac, s, s)
  {
    assert Runs(mac, s, [], s);
  }

  /** There is such a trace for every ideal MAC. */
  lemma OvertakenExists(mac: Mac, a: Alert) returns (trace: Trace)
    requires IdealMac(mac)
    ensures Overtaken(mac, trace)
  {
    BootInv(mac);
    hide Inv, Reaches;
    var first := PublishMany(mac, Boot(), [a]);
    var last := PublishMany(mac, first, seq(WRAP - 1, _ => a));
    ReachesSelf(mac, last);
    trace := (t: nat) => if t == 0 then first else last;
  }

  /** The slot holds a later notification, and the difference of the numbers has come round to nothing. */
  lemma SlotIsLater(mac: Mac, trace: Trace)
    requires Overtaken(mac, trace)
    ensures LatestIn(trace(1), 0) == WRAP - SLOTS
    ensures WRAP - SLOTS < |trace(1).history| && |trace(1).history[WRAP - SLOTS]| == CELLS
    ensures trace(1).history[WRAP - SLOTS][1] != 0
  {
    TraceInv(mac, trace, 1);
    assert Genuine(mac, trace(1).history[WRAP - SLOTS], WRAP - SLOTS);
  }

  /** On every such trace the reader raises TAMPER for notification 0. */
  method FalseTamper(mac: Mac, trace: Trace) returns (e: Event)
    requires Overtaken(mac, trace)
    ensures e.Tamper? && e.sequence == 0
  {
    var m := new Monitor(mac, trace, 0, false);
    hide Honest, IsNumber, LatestIn;
    assert m.pos == 0;
    ghost var res, first;
    e, res, first := m.Look();
    assert trace(first) == trace(1) && trace(m.clock) == trace(1);
    SlotIsLater(mac, trace);
    if e.Emitted? {
      NotThatOne(mac, trace, e.note);
    }
  }

  lemma NotThatOne(mac: Mac, trace: Trace, note: seq<nat>)
    requires Overtaken(mac, trace) && IsNumber(trace(1), WRAP - SLOTS, note) && |note| == CELLS
    ensures note[1] != 0
  {
    SlotIsLater(mac, trace);
  }
}

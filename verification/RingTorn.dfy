/** Why the magic and the sequence number are not enough: a copy that passes both and is no notification. */
module RingTorn {
  import opened AlertRing
  import opened Comms

  lemma {:induction false} RunsConcat(mac: Mac, s: Sys, a: seq<Step>, m: Sys, b: seq<Step>, e: Sys)
    requires Runs(mac, s, a, m) && Runs(mac, m, b, e)
    ensures Runs(mac, s, a + b, e)
    decreases |a|
  {
    if a == [] {
      assert a + b == b;
    } else {
      RunsConcat(mac, Apply(mac, s, a[0]), a[1..], m, b, e);
      assert (a + b)[1..] == a[1..] + b;
    }
  }

  lemma ReachesThen(mac: Mac, s: Sys, m: Sys, e: Sys)
    requires Reaches(mac, s, m) && Reaches(mac, m, e)
    ensures Reaches(mac, s, e)
  {
    var a :| Runs(mac, s, a, m);
    var b :| Runs(mac, m, b, e);
    RunsConcat(mac, s, a, m, b, e);
  }

  /** The writer, undisturbed, publishes the alerts one after the other. */
  lemma {:induction false} PublishMany(mac: Mac, s: Sys, alerts: seq<Alert>) returns (e: Sys)
    requires FourWords(mac) && Inv(mac, s) && s.writer.Idle?
    ensures Reaches(mac, s, e) && Inv(mac, e) && e.writer.Idle?
    ensures |e.history| == |s.history| + |alerts| && s.history <= e.history
    ensures forall n :: |s.history| <= n < |e.history| ==> e.history[n] == Encode(mac, alerts[n - |s.history|], n % WRAP)
    decreases |alerts|
  {
    hide Inv, Encode, Apply, Enabled;
    if alerts == [] {
      e := s;
      assert Runs(mac, s, [], s);
    } else {
      var n := |alerts| - 1;
      var m := PublishMany(mac, s, alerts[..n]);
      IdleIndex(mac, m);
      PublishRuns(mac, m, alerts[n]);
      var q := m.page.driverNonce;
      var c := Encode(mac, alerts[n], q);
      e := Sys(Page((q + 1) % WRAP, (q + 1) % WRAP, m.page.slots[q % SLOTS := c]), Idle, m.history + [c], m.alerts + [alerts[n]]);
      ReachesThen(mac, s, m, e);
    }
  }

  /**
   A reader that has copied magic and sequence of notification 0 when the writer laps it copies the rest from
   notification 16.  Both magic loads find the slot valid and the sequence number is the one it wants.
   */
  lemma TornCopy(mac: Mac, a: Alert, b: Alert) returns (first: Sys, last: Sys, copy: seq<nat>)
    requires FourWords(mac) && a.kind != b.kind
    ensures Reaches(mac, Boot(), first) && Reaches(mac, first, last) && Inv(mac, first) && Inv(mac, last)
    ensures Published(first) == 1 && Published(last) == 17
    ensures |first.page.slots| == SLOTS && |last.page.slots| == SLOTS
    ensures first.page.slots[0][0] == last.page.slots[0][0] == MAGIC
    ensures |copy| == CELLS && copy[..2] == first.page.slots[0][..2] && copy[2..] == last.page.slots[0][2..]
    ensures copy[0] == MAGIC && copy[1] == 0 && copy !in last.history
  {
    hide Inv, Encode, Genuine;
    BootInv(mac);
    first := PublishMany(mac, Boot(), [a]);
    last := PublishMany(mac, first, seq(16, _ => b));
    IdleSlot(mac, first, 0);
    IdleSlot(mac, last, 16);
    var x, y := first.page.slots[0], last.page.slots[0];
    assert x == first.history[0] == Encode(mac, a, 0);
    assert y == last.history[16] == Encode(mac, b, 16);
    copy := x[..2] + y[2..];
    Mixed(mac, a, b, copy);
    forall i | 0 <= i < 17
      ensures last.history[i] != copy
    {
      if i == 0 {
        assert last.history[0] == first.history[0];
      } else {
        assert last.history[i] == Encode(mac, b, i);
      }
    }
  }

  lemma Mixed(mac: Mac, a: Alert, b: Alert, copy: seq<nat>)
    requires FourWords(mac) && copy == Encode(mac, a, 0)[..2] + Encode(mac, b, 16)[2..]
    ensures |copy| == CELLS && copy[0] == MAGIC && copy[1] == 0 && copy[2] == b.kind
    ensures Encode(mac, a, 0)[2] == a.kind && forall i: nat :: Encode(mac, b, i)[1] == i
  {
  }
}

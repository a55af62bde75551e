/** From the events of the ring reader to the alerts the escalation engine is given. */
module AlertFeed {
  import opened AlertRing
  import opened RingReader
  import opened RingMonitor
  import E = Incidents
  import opened RuleRuns

  const FORGED := 0x10001
  const OVERRUN := 0x10002
  const TAMPER := 0x10003

  function PolicyLevel(level: nat): nat {
    if level >= 2 then 2 else if level == 1 then 1 else 0
  }

  /** Something the monitor concluded itself; it names no parameters. */
  function Concluded(code: nat, level: nat, sequence: nat, wall: nat, details: string): E.Alert {
    E.Alert(code, level, sequence, 0, 0, wall, details)
  }

  /** Nothing in a notification whose tag does not verify may steer an action. */
  function Fed(e: Event, wall: nat, details: string): E.Alert
    requires e.Emitted? ==> |e.note| == CELLS
  {
    match e
    case Lost(sequence, _) => Concluded(OVERRUN, 2, sequence, wall, details)
    case Overrun(sequence) => Concluded(OVERRUN, 2, sequence, wall, details)
    case Tamper(sequence) => Concluded(TAMPER, 3, sequence, wall, details)
    case Emitted(_, n, authentic) =>
      if !authentic then Concluded(FORGED, 3, n[1], wall, details)
      else E.Alert(n[2], PolicyLevel(n[3]), n[1], n[5], n[6], n[4], details)
  }

  /**
   The whole way: the alert the kernel submitted as number n, its code, level, parameters and time, is what the engine
   is given for an event with a good tag; for every other event of an honest writer it is told of a loss or a
   forgery, never of tampering.
   */
  lemma FedTruly(mac: Mac, s: Sys, e: Event, n: nat, wall: nat, details: string)
    requires Inv(mac, s) && EntryHolds(e, n, s) && e.sequence == n % WRAP && (e.Emitted? ==> |e.note| == CELLS)
    ensures var al := Fed(e, wall, details);
            if e.Emitted? && e.authentic then
              && n < |s.alerts|
              && var a := s.alerts[n];
                 al == E.Alert(a.kind, if a.level >= 2 then 2 else if a.level == 1 then 1 else 0, n % 0x1_0000_0000,
                               a.param1, a.param2, a.timestamp, details)
            else al.p1 == al.p2 == 0 && (if e.Emitted? then al.code == 0x10001 && al.level == 3 else al.code == 0x10002 && al.level == 2)
  {
    if e.Emitted? && e.authentic {
      assert Genuine(mac, s.history[n], n);
    }
  }

  /** Which rules act on what the kernel submitted. */
  lemma ConcernsSubmitted(mac: Mac, s: Sys, e: Event, n: nat, wall: nat, details: string, rules: seq<E.Rule>, ri: nat)
    requires Inv(mac, s) && EntryHolds(e, n, s) && e.sequence == n % WRAP
    requires e.Emitted? && |e.note| == CELLS && e.authentic && ri < |rules|
    ensures n < |s.alerts|
    ensures Concerned(rules, ri, Fed(e, wall, details)) <==>
            && (if s.alerts[n].level >= 2 then 2 else if s.alerts[n].level == 1 then 1 else 0) >= rules[ri].minLevel
            && (rules[ri].codes == [] || s.alerts[n].kind in rules[ri].codes)
  {
    FedTruly(mac, s, e, n, wall, details);
    hide Inv;
  }
}

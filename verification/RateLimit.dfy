/** Token bucket for alerts below critical: 32 at once, 10 a second sustained. */
module RateLimit {

  const BURST := 32
  const INTERVAL := 100_000_000
  const CRITICAL := 2

  datatype Bucket = Bucket(tokens: nat, last: nat)

  /** Credit for whole intervals since the last credit. */
  function Refill(b: Bucket, now: nat): Bucket
    requires b.last <= now
  {
    var add := (now - b.last) / INTERVAL;
    if add == 0 then b
    else Bucket(if b.tokens + add < BURST then b.tokens + add else BURST, b.last + add * INTERVAL)
  }

  predicate Allows(b: Bucket, now: nat)
    requires b.last <= now
  {
    Refill(b, now).tokens > 0
  }

  function Take(b: Bucket, now: nat): Bucket
    requires b.last <= now
  {
    var r := Refill(b, now);
    if r.tokens > 0 then r.(tokens := r.tokens - 1) else r
  }

  datatype Submission = Submission(now: nat, level: nat, hashOk: bool)
  datatype Outcome = Sent | Dropped | Failed

  /** What becomes of one submission; critical ones do not touch the bucket. */
  function Decide(b: Bucket, x: Submission): (Outcome, Bucket)
    requires b.last <= x.now
  {
    if x.level >= CRITICAL then (if x.hashOk then Sent else Failed, b)
    else if !Allows(b, x.now) then (Dropped, Take(b, x.now))
    else (if x.hashOk then Sent else Failed, Take(b, x.now))
  }

  /** Submissions arrive in the order of a clock that does not run backwards. */
  ghost predicate Ordered(from: nat, xs: seq<Submission>) {
    && (forall i :: 0 <= i < |xs| ==> from <= xs[i].now)
    && (forall i, j :: 0 <= i < j < |xs| ==> xs[i].now <= xs[j].now)
  }

  function Outcomes(b: Bucket, xs: seq<Submission>): (r: seq<Outcome>)
    requires Ordered(b.last, xs)
    ensures |r| == |xs|
    decreases |xs|
  {
    if xs == [] then []
    else
      var d := Decide(b, xs[0]);
      CreditNotAhead(b, xs[0].now);
      [d.0] + Outcomes(d.1, xs[1..])
  }

  lemma CreditNotAhead(b: Bucket, now: nat)
    requires b.last <= now
    ensures b.last <= Refill(b, now).last <= now && now - Refill(b, now).last < INTERVAL
    ensures b.last <= Take(b, now).last <= now
    ensures b.tokens <= BURST ==> Refill(b, now).tokens <= BURST && Take(b, now).tokens <= BURST
  {
  }

  /** Notifications below critical that were published. */
  function Published(xs: seq<Submission>, rs: seq<Outcome>): nat
    requires |xs| == |rs|
  {
    if xs == [] then 0
    else (if xs[0].level < CRITICAL && rs[0] == Sent then 1 else 0) + Published(xs[1..], rs[1..])
  }

  /** What is published is paid for by the tokens there were and the intervals credited since. */
  lemma {:induction false} PaidFor(b: Bucket, xs: seq<Submission>, until: nat)
    requires Ordered(b.last, xs) && b.tokens <= BURST
    requires forall i :: 0 <= i < |xs| ==> xs[i].now <= until
    requires b.last <= until
    ensures Published(xs, Outcomes(b, xs)) <= b.tokens + (until - b.last) / INTERVAL
    decreases |xs|
  {
    if xs != [] {
      var d := Decide(b, xs[0]);
      CreditNotAhead(b, xs[0].now);
      PaidFor(d.1, xs[1..], until);
      Credited(b, xs[0].now, until);
      assert Outcomes(b, xs) == [d.0] + Outcomes(d.1, xs[1..]);
    }
  }

  lemma Credited(b: Bucket, now: nat, until: nat)
    requires b.last <= now <= until && b.tokens <= BURST
    ensures Refill(b, now).tokens + (until - Refill(b, now).last) / INTERVAL <= b.tokens + (until - b.last) / INTERVAL
  {
    var add := (now - b.last) / INTERVAL;
    assert (until - (b.last + add * INTERVAL)) / INTERVAL == (until - b.last) / INTERVAL - add;
  }

  /**
   The bound on any stretch of any run: from whatever state the bucket is in, the alerts below critical that
   are published at times within [t1, t2] number at most 33 plus one per interval.
   */
  lemma {:induction false} Bounded(b: Bucket, xs: seq<Submission>, t1: nat, t2: nat)
    requires Ordered(b.last, xs) && b.tokens <= BURST && t1 <= t2
    requires forall i :: 0 <= i < |xs| ==> t1 <= xs[i].now <= t2
    ensures Published(xs, Outcomes(b, xs)) <= 33 + (t2 - t1) / 100_000_000
    decreases |xs|
  {
    if xs != [] {
      var d := Decide(b, xs[0]);
      CreditNotAhead(b, xs[0].now);
      assert Outcomes(b, xs) == [d.0] + Outcomes(d.1, xs[1..]);
      if xs[0].level >= CRITICAL {
        Bounded(b, xs[1..], t1, t2);
      } else {
        PaidFor(d.1, xs[1..], t2);
        var r := Refill(b, xs[0].now);
        assert (t2 - r.last) / INTERVAL <= (t2 - t1 + INTERVAL) / INTERVAL == (t2 - t1) / INTERVAL + 1;
      }
    }
  }

  /** Submissions below critical. */
  function Low(xs: seq<Submission>): nat {
    if xs == [] then 0 else (if xs[0].level < CRITICAL then 1 else 0) + Low(xs[1..])
  }

  /**
   The bucket gives what it has: with n tokens there, or earned by whole intervals since the last credit, the next n
   submissions below critical are not dropped, n being at most 32.
   */
  lemma {:induction false} Served(b: Bucket, xs: seq<Submission>, i: nat, n: nat)
    requires Ordered(b.last, xs) && i < |xs| && n <= 32
    requires n <= b.tokens + (xs[0].now - b.last) / 100_000_000 && Low(xs[..i]) < n
    ensures Outcomes(b, xs)[i] == if xs[i].hashOk then Sent else Failed
    decreases |xs|
  {
    CreditNotAhead(b, xs[0].now);
    if i > 0 {
      assert xs[..i][1..] == xs[1..][..i - 1];
      var d, rest := Decide(b, xs[0]).1, xs[1..];
      if xs[0].level >= CRITICAL {
        assert (rest[0].now - d.last) / INTERVAL >= (xs[0].now - b.last) / INTERVAL;
        Served(d, rest, i - 1, n);
      } else {
        Served(d, rest, i - 1, n - 1);
      }
    }
  }

  /** Critical alerts are never rate limited, whatever the bucket holds. */
  lemma {:induction false} CriticalNeverDropped(b: Bucket, xs: seq<Submission>, i: nat)
    requires Ordered(b.last, xs) && i < |xs| && xs[i].level >= CRITICAL
    ensures Outcomes(b, xs)[i] == if xs[i].hashOk then Sent else Failed
    decreases |xs|
  {
    CreditNotAhead(b, xs[0].now);
    if i > 0 {
      CriticalNeverDropped(Decide(b, xs[0]).1, xs[1..], i - 1);
    }
  }
}

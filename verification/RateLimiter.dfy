/**
 * The token-bucket limiter of the authentication routes, over real arithmetic.
 * Times are seconds; they may go back, because callers read the clock before
 * they take the lock.
 */
module RateLimiter {
  import opened Options

  const PURGE_ABOVE := 4096

  datatype Ip = V4(bits: nat) | V6(bits: nat)

  datatype Bucket = Bucket(tokens: real, last: real)

  type Buckets = map<Ip, Bucket>

  /** `capacity` tokens refill over `window` seconds, `rate` of them a second. */
  datatype Limits = Limits(capacity: real, rate: real, window: real)

  /** The limits of a limiter that is switched on. */
  function LimitsOf(capacity: nat, window: nat): (l: Limits)
    requires capacity > 0 && window > 0
    ensures Active(l)
  {
    var l := Limits(capacity as real, capacity as real / window as real, window as real);
    assert l.rate * l.window == l.capacity;
    l
  }

  predicate Active(l: Limits) {
    l.capacity >= 1.0 && l.rate > 0.0 && l.window > 0.0 && l.rate * l.window == l.capacity
  }

  /** The tokens left, or the seconds to wait. */
  type Answer = Result<real, nat>

  // -------------------------------------------------------- the specification

  /** `saturating_duration_since`. */
  function Since(now: real, earlier: real): real {
    if now > earlier then now - earlier else 0.0
  }

  function Ceiling(x: real): int {
    -((-x).Floor)
  }

  /** The refill of a bucket at `now`; it moves the bucket's time even backwards. */
  function TopUp(b: Bucket, capacity: real, rate: real, now: real): Bucket {
    var tokens := b.tokens + Since(now, b.last) * rate;
    Bucket(if tokens < capacity then tokens else capacity, now)
  }

  /** A request at `now` against a bucket; an address without one starts full. */
  function Ask(l: Limits, b: Option<Bucket>, now: real): (Bucket, Answer)
    requires Active(l)
  {
    var full := TopUp(if b.Some? then b.value else Bucket(l.capacity, now), l.capacity, l.rate, now);
    if full.tokens >= 1.0 then (full.(tokens := full.tokens - 1.0), Ok(full.tokens - 1.0))
    else
      var wait := Ceiling((1.0 - full.tokens) / l.rate);
      (full, Err(if wait < 1 then 1 else wait))
  }

  function Lookup(m: Buckets, ip: Ip): Option<Bucket> {
    if ip in m then Some(m[ip]) else None
  }

  function Purged(l: Limits, m: Buckets, now: real): Buckets {
    if |m| > PURGE_ABOVE then map ip | ip in m && Since(now, m[ip].last) < 4.0 * l.window :: m[ip] else m
  }

  function Serve(l: Limits, m: Buckets, ip: Ip, now: real): (Buckets, Answer)
    requires Active(l)
  {
    var kept := Purged(l, m, now);
    var (b, answer) := Ask(l, Lookup(kept, ip), now);
    (kept[ip := b], answer)
  }

  /** A capacity of 0 switches the limiter off. */
  class AuthRateLimiter {
    const capacity: nat
    const window: nat
    var buckets: Buckets

    constructor (capacity: nat, windowSeconds: nat)
      ensures this.capacity == capacity && this.window == (if windowSeconds < 1 then 1 else windowSeconds)
      ensures buckets == map[]
    {
      this.capacity := capacity;
      this.window := if windowSeconds < 1 then 1 else windowSeconds;
      buckets := map[];
    }

    /** `check`. */
    method Check(ip: Ip, now: real) returns (r: Answer)
      requires window > 0
      modifies this`buckets
      ensures capacity == 0 ==> r == Ok(0.0) && buckets == old(buckets)
      ensures capacity > 0 ==> (buckets, r) == Serve(LimitsOf(capacity, window), old(buckets), ip, now)
    {
      if capacity == 0 {
        return Ok(0.0);
      }
      ghost var l := LimitsOf(capacity, window);
      var refillPerSecond := capacity as real / window as real;
      assert refillPerSecond == l.rate;
      if |buckets| > PURGE_ABOVE {
        buckets := map ip | ip in buckets && Since(now, buckets[ip].last) < 4.0 * window as real :: buckets[ip];
      }
      assert buckets == Purged(l, old(buckets), now);
      var bucket := if ip in buckets then buckets[ip] else Bucket(capacity as real, now);
      bucket := TopUp(bucket, capacity as real, refillPerSecond, now);
      if bucket.tokens >= 1.0 {
        bucket := bucket.(tokens := bucket.tokens - 1.0);
        buckets := buckets[ip := bucket];
        return Ok(bucket.tokens);
      }
      buckets := buckets[ip := bucket];
      var wait := Ceiling((1.0 - bucket.tokens) / refillPerSecond);
      return Err(if wait < 1 then 1 else wait);
    }
  }

  // ------------------------------------------------------------------- runs

  datatype Query = Query(ip: Ip, now: real)

  /** A whole run of the limiter from an empty map, purges included. */
  function Run(l: Limits, qs: seq<Query>): (r: (Buckets, seq<Answer>))
    requires Active(l)
    ensures |r.1| == |qs|
  {
    if qs == [] then (map[], [])
    else
      var n := |qs| - 1;
      var (m, answers) := Run(l, qs[..n]);
      var (next, answer) := Serve(l, m, qs[n].ip, qs[n].now);
      (next, answers + [answer])
  }

  /** The bucket of one address that never loses it and sees only its own requests. */
  function Alone(l: Limits, qs: seq<Query>, ip: Ip): Option<Bucket>
    requires Active(l)
  {
    if qs == [] then None
    else
      var n := |qs| - 1;
      var before := Alone(l, qs[..n], ip);
      if qs[n].ip == ip then Some(Ask(l, before, qs[n].now).0) else before
  }

  /** The requests of one address. */
  function Own(qs: seq<Query>, ip: Ip): seq<Query> {
    if qs == [] then []
    else Own(qs[..|qs| - 1], ip) + if qs[|qs| - 1].ip == ip then [qs[|qs| - 1]] else []
  }

  lemma {:induction false} AloneSeesOwn(l: Limits, qs: seq<Query>, ip: Ip)
    requires Active(l)
    ensures Alone(l, qs, ip) == Alone(l, Own(qs, ip), ip)
  {
    if qs != [] {
      var n := |qs| - 1;
      AloneSeesOwn(l, qs[..n], ip);
      var own := Own(qs[..n], ip);
      if qs[n].ip == ip {
        assert (own + [qs[n]])[..|own|] == own;
      } else {
        assert own + [] == own;
      }
    }
  }

  ghost predicate Forward(qs: seq<Query>) {
    forall i, j :: 0 <= i <= j < |qs| ==> qs[i].now <= qs[j].now
  }

  predicate InRange(l: Limits, b: Bucket) {
    0.0 <= b.tokens <= l.capacity
  }

  lemma GainIsPositive(elapsed: real, rate: real)
    requires elapsed >= 0.0 && rate > 0.0
    ensures elapsed * rate >= 0.0
  {
  }

  lemma AskKeepsRange(l: Limits, b: Option<Bucket>, now: real)
    requires Active(l) && (b.Some? ==> InRange(l, b.value))
    ensures InRange(l, Ask(l, b, now).0) && Ask(l, b, now).0.last == now
  {
    if b.Some? { GainIsPositive(Since(now, b.value.last), l.rate); }
  }

  /** After four windows a bucket is full. */
  lemma StaleIsFull(l: Limits, b: Bucket, now: real)
    requires Active(l) && InRange(l, b) && Since(now, b.last) >= 4.0 * l.window
    ensures Ask(l, Some(b), now) == Ask(l, None, now)
  {
    var e, r, w := Since(now, b.last), l.rate, l.window;
    GainIsPositive(e - 4.0 * w, r);
    assert e * r == (e - 4.0 * w) * r + 4.0 * (r * w);
  }

  /** The map may miss the bucket of an address only when that bucket is full again. */
  predicate Agrees(l: Limits, kept: Option<Bucket>, alone: Option<Bucket>, time: real) {
    && (alone.Some? ==> InRange(l, alone.value) && alone.value.last <= time)
    && (kept == alone || (kept.None? && alone.Some? && time - alone.value.last >= 4.0 * l.window))
  }

  ghost predicate AllAgree(l: Limits, m: Buckets, qs: seq<Query>, time: real)
    requires Active(l)
  {
    forall ip :: Agrees(l, Lookup(m, ip), Alone(l, qs, ip), time)
  }

  lemma ServeAgrees(l: Limits, m: Buckets, qs: seq<Query>, time: real, q: Query)
    requires Active(l) && AllAgree(l, m, qs, time) && time <= q.now
    ensures Serve(l, m, q.ip, q.now).1 == Ask(l, Alone(l, qs, q.ip), q.now).1
    ensures AllAgree(l, Serve(l, m, q.ip, q.now).0, qs + [q], q.now)
  {
    var kept := Purged(l, m, q.now);
    assert (qs + [q])[..|qs|] == qs;
    forall ip ensures Agrees(l, Lookup(kept, ip), Alone(l, qs, ip), q.now) {
      assert Agrees(l, Lookup(m, ip), Alone(l, qs, ip), time);
    }
    var alone := Alone(l, qs, q.ip);
    assert Agrees(l, Lookup(kept, q.ip), alone, q.now);
    if Lookup(kept, q.ip) != alone { StaleIsFull(l, alone.value, q.now); }
    AskKeepsRange(l, alone, q.now);
    forall ip ensures Agrees(l, Lookup(Serve(l, m, q.ip, q.now).0, ip), Alone(l, qs + [q], ip), q.now) {
      assert Agrees(l, Lookup(kept, ip), Alone(l, qs, ip), q.now);
    }
  }

  function LastTime(qs: seq<Query>): real {
    if qs == [] then 0.0 else qs[|qs| - 1].now
  }

  lemma RunStep(l: Limits, qs: seq<Query>, q: Query)
    requires Active(l)
    ensures var (m, answers) := Run(l, qs); var (next, answer) := Serve(l, m, q.ip, q.now);
      Run(l, qs + [q]) == (next, answers + [answer])
  {
    assert (qs + [q])[..|qs|] == qs;
  }

  lemma {:induction false} RunAgrees(l: Limits, qs: seq<Query>)
    requires Active(l) && Forward(qs)
    ensures AllAgree(l, Run(l, qs).0, qs, LastTime(qs))
  {
    if qs != [] {
      var n := |qs| - 1;
      var before := qs[..n];
      RunAgrees(l, before);
      var time := if before == [] then qs[n].now else LastTime(before);
      assert AllAgree(l, Run(l, before).0, before, time) by {
        forall ip ensures Agrees(l, Lookup(Run(l, before).0, ip), Alone(l, before, ip), time) {
          assert Agrees(l, Lookup(Run(l, before).0, ip), Alone(l, before, ip), LastTime(before));
        }
      }
      ServeAgrees(l, Run(l, before).0, before, time, qs[n]);
      assert before + [qs[n]] == qs;
    }
  }

  lemma {:induction false} AnswersArePrefix(l: Limits, qs: seq<Query>, k: nat)
    requires Active(l) && k <= |qs|
    ensures Run(l, qs).1[..k] == Run(l, qs[..k]).1
  {
    if k == |qs| {
      assert qs[..k] == qs && Run(l, qs).1[..k] == Run(l, qs).1;
    } else {
      var n := |qs| - 1;
      AnswersArePrefix(l, qs[..n], k);
      assert qs[..n][..k] == qs[..k] && qs == qs[..n] + [qs[n]];
      RunStep(l, qs[..n], qs[n]);
    }
  }

  /** Answer `k` of a forward run is that of the bucket of its address. */
  lemma AnswerOf(l: Limits, qs: seq<Query>, k: nat)
    requires Active(l) && Forward(qs) && k < |qs|
    ensures Run(l, qs).1[k] == Ask(l, Alone(l, qs[..k], qs[k].ip), qs[k].now).1
  {
    var before := qs[..k];
    RunAgrees(l, before);
    var m := Run(l, before).0;
    var time := if before == [] then qs[k].now else LastTime(before);
    forall ip ensures Agrees(l, Lookup(m, ip), Alone(l, before, ip), time) {
      assert Agrees(l, Lookup(m, ip), Alone(l, before, ip), LastTime(before));
    }
    ServeAgrees(l, m, before, time, qs[k]);
    RunStep(l, before, qs[k]);
    assert qs[..k + 1] == before + [qs[k]];
    AnswersArePrefix(l, qs, k + 1);
    assert Run(l, qs).1[..k + 1][k] == Run(l, qs).1[k];
  }

  // ------------------------------------------------------------ main results

  /**
   * While time does not go back, every answer is that of a bucket which is never
   * purged and sees the requests of its own address only.
   */
  lemma {:induction false} PurgesAndOthersDoNotMatter(l: Limits, qs: seq<Query>, k: nat)
    requires Active(l) && Forward(qs) && k < |qs|
    ensures Run(l, qs).1[k] == Ask(l, Alone(l, Own(qs[..k], qs[k].ip), qs[k].ip), qs[k].now).1
  {
    AnswerOf(l, qs, k);
    AloneSeesOwn(l, qs[..k], qs[k].ip);
  }

  /** The requests of an address that were admitted among `qs[i..j]`. */
  function AdmittedAt(qs: seq<Query>, answers: seq<Answer>, ip: Ip, i: nat, j: nat): set<nat>
    requires j <= |qs| == |answers|
  {
    set k: nat | i <= k < j && qs[k].ip == ip && answers[k].Ok?
  }

  function Admitted(l: Limits, qs: seq<Query>, ip: Ip, i: nat, j: nat): nat
    requires Active(l) && i <= j <= |qs|
  {
    |AdmittedAt(qs, Run(l, qs).1, ip, i, j)|
  }

  lemma OneMoreAdmitted(qs: seq<Query>, answers: seq<Answer>, ip: Ip, i: nat, j: nat)
    requires i < j <= |qs| == |answers|
    ensures |AdmittedAt(qs, answers, ip, i, j)|
            == |AdmittedAt(qs, answers, ip, i, j - 1)| + if qs[j - 1].ip == ip && answers[j - 1].Ok? then 1 else 0
  {
    var before, after := AdmittedAt(qs, answers, ip, i, j - 1), AdmittedAt(qs, answers, ip, i, j);
    assert after == if qs[j - 1].ip == ip && answers[j - 1].Ok? then before + {j - 1} else before;
  }

  /** What a bucket gains between two times. */
  function Gain(l: Limits, start: real, end: real): real {
    (end - start) * l.rate
  }

  lemma GainAdds(l: Limits, a: real, b: real, c: real)
    requires Active(l) && a <= b <= c
    ensures Gain(l, a, b) + Gain(l, b, c) == Gain(l, a, c)
    ensures Gain(l, a, b) >= 0.0 && Gain(l, b, c) >= 0.0
  {
    GainIsPositive(b - a, l.rate);
    GainIsPositive(c - b, l.rate);
  }

  lemma AskSpends(l: Limits, b: Option<Bucket>, now: real)
    requires Active(l) && (b.Some? ==> InRange(l, b.value))
    ensures var (after, answer) := Ask(l, b, now);
      && (answer.Ok? ==> after.tokens + 1.0 <= l.capacity)
      && (b.Some? ==> after.tokens + (if answer.Ok? then 1.0 else 0.0)
                      <= b.value.tokens + if b.value.last <= now then Gain(l, b.value.last, now) else 0.0)
  {
    if b.Some? { GainIsPositive(Since(now, b.value.last), l.rate); }
  }

  lemma {:induction false} AloneInRange(l: Limits, qs: seq<Query>, ip: Ip)
    requires Active(l)
    ensures Alone(l, qs, ip).Some? ==> InRange(l, Alone(l, qs, ip).value)
  {
    if qs != [] {
      var n := |qs| - 1;
      AloneInRange(l, qs[..n], ip);
      AskKeepsRange(l, Alone(l, qs[..n], ip), qs[n].now);
    }
  }

  /** What the requests `qs[i..j]` of an address have cost, and what its bucket still holds. */
  ghost predicate Paid(l: Limits, qs: seq<Query>, ip: Ip, i: nat, j: nat)
    requires Active(l) && i < |qs| && i <= j <= |qs|
  {
    var b := Alone(l, qs[..j], ip);
    || Admitted(l, qs, ip, i, j) == 0
    || (b.Some? && qs[i].now <= b.value.last
        && Admitted(l, qs, ip, i, j) as real + b.value.tokens <= l.capacity + Gain(l, qs[i].now, b.value.last))
  }

  lemma AdmissionIsPaid(l: Limits, qs: seq<Query>, ip: Ip, i: nat, j: nat)
    requires Active(l) && Forward(qs) && i < j <= |qs| && qs[j - 1].ip == ip && Paid(l, qs, ip, i, j - 1)
    requires var before := Alone(l, qs[..j - 1], ip);
      before.Some? ==> InRange(l, before.value) && before.value.last <= qs[j - 1].now
    ensures Paid(l, qs, ip, i, j)
  {
    var start, now := qs[i].now, qs[j - 1].now;
    var before := Alone(l, qs[..j - 1], ip);
    assert qs[..j][..j - 1] == qs[..j - 1];
    AnswerOf(l, qs, j - 1);
    OneMoreAdmitted(qs, Run(l, qs).1, ip, i, j);
    AskSpends(l, before, now);
    AskKeepsRange(l, before, now);
    if Admitted(l, qs, ip, i, j - 1) == 0 {
      GainAdds(l, start, now, now);
    } else {
      GainAdds(l, start, before.value.last, now);
    }
  }

  lemma {:induction false} EveryAdmissionIsPaid(l: Limits, qs: seq<Query>, ip: Ip, i: nat, j: nat)
    requires Active(l) && Forward(qs) && i < |qs| && i <= j <= |qs|
    ensures Paid(l, qs, ip, i, j)
    decreases j
  {
    if i < j {
      EveryAdmissionIsPaid(l, qs, ip, i, j - 1);
      OneMoreAdmitted(qs, Run(l, qs).1, ip, i, j);
      if qs[j - 1].ip == ip {
        AloneInRange(l, qs[..j - 1], ip);
        if j > 1 { AloneIsOld(l, qs, ip, j - 1); }
        AdmissionIsPaid(l, qs, ip, i, j);
      } else {
        assert qs[..j][..j - 1] == qs[..j - 1];
      }
    }
  }

  lemma {:induction false} AloneIsOld(l: Limits, qs: seq<Query>, ip: Ip, j: nat)
    requires Active(l) && Forward(qs) && 0 < j <= |qs|
    ensures Alone(l, qs[..j], ip).Some? ==> Alone(l, qs[..j], ip).value.last <= qs[j - 1].now
  {
    assert qs[..j][..j - 1] == qs[..j - 1];
    if j > 1 { AloneIsOld(l, qs, ip, j - 1); }
  }

  /** While time does not go back, an address is admitted at most `capacity + rate * T` times in `T` seconds. */
  lemma AdmissionBound(l: Limits, qs: seq<Query>, ip: Ip, i: nat, j: nat)
    requires Active(l) && Forward(qs) && i < j <= |qs|
    ensures Admitted(l, qs, ip, i, j) as real <= l.capacity + Gain(l, qs[i].now, qs[j - 1].now)
  {
    EveryAdmissionIsPaid(l, qs, ip, i, j);
    AloneInRange(l, qs[..j], ip);
    AloneIsOld(l, qs, ip, j);
    var b := Alone(l, qs[..j], ip);
    if Admitted(l, qs, ip, i, j) > 0 {
      GainAdds(l, qs[i].now, b.value.last, qs[j - 1].now);
    } else {
      GainAdds(l, qs[i].now, qs[i].now, qs[j - 1].now);
    }
  }

  lemma CeilingIsLeast(x: real, d: int)
    ensures d as real >= x <==> d >= Ceiling(x)
  {
  }

  lemma GainReaches(x: real, d: real, rate: real)
    requires rate > 0.0
    ensures d * rate >= x * rate <==> d >= x
  {
    if d >= x { GainIsPositive(d - x, rate); } else { assert (x - d) * rate > 0.0; }
  }

  /** Tokens reach 1 after `d` seconds exactly when `d` is at least the wait. */
  lemma WaitIsExact(missing: real, rate: real, d: int)
    requires missing > 0.0 && rate > 0.0
    ensures d as real * rate >= missing <==> d >= Ceiling(missing / rate)
    ensures Ceiling(missing / rate) >= 1
  {
    var x := missing / rate;
    assert x * rate == missing;
    GainReaches(x, d as real, rate);
    GainReaches(x, 0.0, rate);
    CeilingIsLeast(x, d);
    CeilingIsLeast(x, 0);
  }

  /** Of a denied address the returned whole seconds are enough, and fewer are not. */
  lemma RetryAfterIsExact(l: Limits, b: Option<Bucket>, now: real, d: nat)
    requires Active(l) && (b.Some? ==> InRange(l, b.value))
    ensures var (after, answer) := Ask(l, b, now);
      answer.Err? ==> (Ask(l, Some(after), now + d as real).1.Ok? <==> d >= answer.error)
  {
    var (after, answer) := Ask(l, b, now);
    if answer.Err? {
      AskKeepsRange(l, b, now);
      WaitIsExact(1.0 - after.tokens, l.rate, d);
      assert Since(now + d as real, now) == d as real;
    }
  }

  // ------------------------------------------------- what is admitted at once

  /** `n` requests at one instant: the bucket they leave, and how many are admitted. */
  function Asks(l: Limits, b: Option<Bucket>, now: real, n: nat): (Option<Bucket>, nat)
    requires Active(l)
  {
    if n == 0 then (b, 0)
    else
      var (before, admitted) := Asks(l, b, now, n - 1);
      var (after, answer) := Ask(l, before, now);
      (Some(after), if answer.Ok? then admitted + 1 else admitted)
  }

  /** What a bucket holds once it is refilled. */
  function Held(l: Limits, b: Option<Bucket>, now: real): real {
    if b.Some? then TopUp(b.value, l.capacity, l.rate, now).tokens else l.capacity
  }

  function Least(a: int, b: int): int {
    if a < b then a else b
  }

  lemma AskAgain(l: Limits, b: Option<Bucket>, now: real)
    requires Active(l) && (b.Some? ==> InRange(l, b.value))
    ensures var (after, answer) := Ask(l, b, now);
      && (answer.Ok? <==> Held(l, b, now) >= 1.0)
      && Held(l, Some(after), now) == Held(l, b, now) - (if answer.Ok? then 1.0 else 0.0)
  {
    AskKeepsRange(l, b, now);
    if b.Some? { GainIsPositive(Since(now, b.value.last), l.rate); }
  }

  /** At one instant as many requests are admitted as the refilled bucket holds whole tokens, and no more. */
  lemma {:induction false} BurstIsAdmitted(l: Limits, b: Option<Bucket>, now: real, n: nat)
    requires Active(l) && (b.Some? ==> InRange(l, b.value))
    ensures var (after, admitted) := Asks(l, b, now, n);
      && admitted == Least(n, Held(l, b, now).Floor)
      && (after.Some? ==> InRange(l, after.value)) && Held(l, after, now) == Held(l, b, now) - admitted as real
  {
    if n == 0 {
      if b.Some? { GainIsPositive(Since(now, b.value.last), l.rate); }
    } else {
      BurstIsAdmitted(l, b, now, n - 1);
      AskAgain(l, Asks(l, b, now, n - 1).0, now);
      AskKeepsRange(l, Asks(l, b, now, n - 1).0, now);
    }
  }

  /** An address that is new, or rested for a whole window, holds a full bucket. */
  lemma RestedIsFull(l: Limits, b: Option<Bucket>, now: real)
    requires Active(l)
    requires b.Some? ==> InRange(l, b.value) && Since(now, b.value.last) >= l.window
    ensures Held(l, b, now) == l.capacity
  {
    if b.Some? { GainReaches(l.window, Since(now, b.value.last), l.rate); }
  }

  /** Such an address is admitted `capacity` times at once. */
  lemma RestedBurst(capacity: nat, window: nat, b: Option<Bucket>, now: real, n: nat)
    requires capacity > 0 && window > 0
    requires var l := LimitsOf(capacity, window);
      b.Some? ==> InRange(l, b.value) && Since(now, b.value.last) >= l.window
    ensures Asks(LimitsOf(capacity, window), b, now, n).1 == Least(n, capacity)
  {
    var l := LimitsOf(capacity, window);
    RestedIsFull(l, b, now);
    BurstIsAdmitted(l, b, now, n);
    assert l.capacity.Floor == capacity;
  }

  lemma TopUpTwice(b: Bucket, capacity: real, rate: real, now: real, later: real)
    requires b.last <= now <= later && TopUp(b, capacity, rate, now).tokens < capacity
    ensures TopUp(TopUp(b, capacity, rate, now), capacity, rate, later) == TopUp(b, capacity, rate, later)
  {
    var x, y := Since(now, b.last), Since(later, now);
    assert Since(later, b.last) == x + y;
    assert (x + y) * rate == x * rate + y * rate;
  }

  /** Asking while denied does not put off the next admission. */
  lemma DeniedRequestsDoNotMatter(l: Limits, b: Bucket, now: real, later: real)
    requires Active(l) && b.last <= now <= later
    ensures var (after, answer) := Ask(l, Some(b), now);
      answer.Err? ==> Ask(l, Some(after), later) == Ask(l, Some(b), later)
  {
    if Ask(l, Some(b), now).1.Err? { TopUpTwice(b, l.capacity, l.rate, now, later); }
  }

  /** Forward steps of the clock. */
  function Travel(qs: seq<Query>): real {
    if |qs| < 2 then 0.0
    else Travel(qs[..|qs| - 1]) + Since(qs[|qs| - 1].now, qs[|qs| - 2].now)
  }

  ghost predicate Travelled(l: Limits, qs: seq<Query>, ip: Ip)
    requires Active(l)
  {
    qs != [] ==>
      var (m, answers) := Run(l, qs);
      && m.Keys == {ip} && InRange(l, m[ip]) && m[ip].last == LastTime(qs)
      && Count(answers) as real + m[ip].tokens <= l.capacity + Gain(l, 0.0, Travel(qs))
  }

  lemma {:induction false} TravelIsForward(qs: seq<Query>)
    ensures Travel(qs) >= 0.0
  {
    if |qs| >= 2 { TravelIsForward(qs[..|qs| - 1]); }
  }

  lemma TravelGains(l: Limits, qs: seq<Query>, q: Query)
    requires Active(l) && qs != []
    ensures var last := LastTime(qs);
      Gain(l, 0.0, Travel(qs + [q])) == Gain(l, 0.0, Travel(qs)) + if last <= q.now then Gain(l, last, q.now) else 0.0
  {
    TravelIsForward(qs);
    assert (qs + [q])[..|qs|] == qs;
    var step := Since(q.now, LastTime(qs));
    GainAdds(l, 0.0, Travel(qs), Travel(qs) + step);
    assert Gain(l, Travel(qs), Travel(qs) + step) == step * l.rate;
  }

  lemma TravelStep(l: Limits, qs: seq<Query>, q: Query)
    requires Active(l) && qs != [] && Travelled(l, qs, q.ip)
    ensures Travelled(l, qs + [q], q.ip)
  {
    var m := Run(l, qs).0;
    assert |m.Keys| == 1;
    OneMore(l, qs, m, Run(l, qs).1, q);
    AskSpends(l, Some(m[q.ip]), q.now);
    AskKeepsRange(l, Some(m[q.ip]), q.now);
    TravelGains(l, qs, q);
  }

  lemma TravelStart(l: Limits, q: Query)
    requires Active(l)
    ensures Travelled(l, [q], q.ip)
  {
    OneMore(l, [], map[], [], q);
    AskSpends(l, None, q.now);
    AskKeepsRange(l, None, q.now);
    assert [] + [q] == [q];
    GainAdds(l, 0.0, 0.0, 0.0);
  }

  /** For a limiter that one address asks, the clock's forward steps pay for the admissions, whatever the times. */
  lemma {:induction false} OneAddressTravels(l: Limits, qs: seq<Query>, ip: Ip)
    requires Active(l) && forall k :: 0 <= k < |qs| ==> qs[k].ip == ip
    ensures Travelled(l, qs, ip)
  {
    if |qs| == 1 {
      TravelStart(l, qs[0]);
      assert qs == [qs[0]];
    } else if |qs| > 1 {
      var n := |qs| - 1;
      OneAddressTravels(l, qs[..n], ip);
      TravelStep(l, qs[..n], qs[n]);
      assert qs == qs[..n] + [qs[n]];
    }
  }

  function Count(answers: seq<Answer>): nat {
    if answers == [] then 0 else Count(answers[..|answers| - 1]) + if answers[|answers| - 1].Ok? then 1 else 0
  }

  lemma CountPush(answers: seq<Answer>, a: Answer)
    ensures Count(answers + [a]) == Count(answers) + if a.Ok? then 1 else 0
  {
    assert (answers + [a])[..|answers|] == answers;
  }

  lemma OneMore(l: Limits, qs: seq<Query>, m: Buckets, answers: seq<Answer>, q: Query)
    requires Active(l) && Run(l, qs) == (m, answers) && |m| <= 1
    ensures var (b, a) := Ask(l, Lookup(m, q.ip), q.now); Run(l, qs + [q]) == (m[q.ip := b], answers + [a])
    ensures Count(answers + [Ask(l, Lookup(m, q.ip), q.now).1])
         == Count(answers) + if Ask(l, Lookup(m, q.ip), q.now).1.Ok? then 1 else 0
  {
    RunStep(l, qs, q);
    CountPush(answers, Ask(l, Lookup(m, q.ip), q.now).1);
  }

  const ONE := Limits(1.0, 1.0, 1.0)

  /** Once emptied at time 1, the bucket is filled again by a request at 0 and the next one at 1. */
  lemma Refill()
    ensures Active(ONE) && Swings(ONE, Bucket(0.0, 1.0), Bucket(0.0, 0.0))
    ensures ONE.capacity + Gain(ONE, 0.0, 1.0) == 2.0
  {
  }

  lemma Overwritten(ip: Ip, b: Bucket, after: Bucket)
    ensures map[ip := b][ip := after] == map[ip := after]
  {
  }

  lemma SameAddress(l: Limits, qs: seq<Query>, ip: Ip, b: Bucket, now: real)
    requires Active(l) && Run(l, qs).0 == map[ip := b]
    ensures var (after, answer) := Ask(l, Some(b), now); var (m, answers) := Run(l, qs + [Query(ip, now)]);
      m == map[ip := after] && Count(answers) == Count(Run(l, qs).1) + if answer.Ok? then 1 else 0
  {
    OneMore(l, qs, map[ip := b], Run(l, qs).1, Query(ip, now));
    Overwritten(ip, b, Ask(l, Some(b), now).0);
  }

  lemma FirstAsk(l: Limits, ip: Ip, now: real)
    requires Active(l)
    ensures var (after, answer) := Ask(l, None, now); var (m, answers) := Run(l, [Query(ip, now)]);
      m == map[ip := after] && Count(answers) == if answer.Ok? then 1 else 0
  {
    OneMore(l, [], map[], [], Query(ip, now));
    assert [] + [Query(ip, now)] == [Query(ip, now)];
    assert map[][ip := Ask(l, None, now).0] == map[ip := Ask(l, None, now).0];
  }

  /** A clock that keeps jumping between 1 and 0. */
  function Jumps(ip: Ip, n: nat): seq<Query> {
    if n == 0 then [Query(ip, 1.0)] else Jumps(ip, n - 1) + [Query(ip, 0.0)] + [Query(ip, 1.0)]
  }

  ghost predicate WithinSecond(qs: seq<Query>, ip: Ip) {
    forall k :: 0 <= k < |qs| ==> qs[k].ip == ip && 0.0 <= qs[k].now <= 1.0
  }

  lemma {:induction false} JumpsWithinSecond(ip: Ip, n: nat)
    ensures WithinSecond(Jumps(ip, n), ip)
  {
    if n > 0 { JumpsWithinSecond(ip, n - 1); }
  }

  /** Two states of a bucket between which requests at 0 and 1 move it, admitting the later one. */
  ghost predicate Swings(l: Limits, high: Bucket, low: Bucket)
    requires Active(l)
  {
    && Ask(l, None, 1.0) == (high, Ok(0.0))
    && Ask(l, Some(high), 0.0) == (low, Err(1)) && Ask(l, Some(low), 1.0) == (high, Ok(0.0))
  }

  lemma {:induction false} JumpsAdmit(l: Limits, ip: Ip, n: nat, high: Bucket, low: Bucket)
    requires Active(l)
    ensures Swings(l, high, low) ==>
      Run(l, Jumps(ip, n)).0 == map[ip := high] && Count(Run(l, Jumps(ip, n)).1) == n + 1
  {
    if Swings(l, high, low) {
      if n == 0 {
        FirstAsk(l, ip, 1.0);
      } else {
        JumpsAdmit(l, ip, n - 1, high, low);
        SameAddress(l, Jumps(ip, n - 1), ip, high, 0.0);
        SameAddress(l, Jumps(ip, n - 1) + [Query(ip, 0.0)], ip, low, 1.0);
      }
    }
  }

  /** When the clock goes back, one second admits any number of requests, although `capacity + rate * T` is 2. */
  lemma BackwardTimeAdmitsMore(ip: Ip, n: nat)
    ensures Active(ONE) && ONE.capacity + Gain(ONE, 0.0, 1.0) < 3.0
    ensures WithinSecond(Jumps(ip, n), ip) && Count(Run(ONE, Jumps(ip, n)).1) == n + 1
  {
    Refill();
    JumpsWithinSecond(ip, n);
    JumpsAdmit(ONE, ip, n, Bucket(0.0, 1.0), Bucket(0.0, 0.0));
  }
}

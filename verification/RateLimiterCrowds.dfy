/**
 * The limiter asked by many addresses at times that may go back. Up to the size at
 * which buckets are purged the addresses do not see each other; beyond it a purge
 * at a late time hands a full bucket to a request with an early one.
 */
module RateLimiterCrowds {
  import opened Options
  import opened RateLimiter

  function Addresses(qs: seq<Query>): set<Ip> {
    set k | 0 <= k < |qs| :: qs[k].ip
  }

  /** The answers to one address, in order. */
  function AnswersTo(l: Limits, qs: seq<Query>, ip: Ip): seq<Answer>
    requires Active(l)
  {
    if qs == [] then []
    else
      var n := |qs| - 1;
      AnswersTo(l, qs[..n], ip) + if qs[n].ip == ip then [Run(l, qs).1[n]] else []
  }

  lemma AnswersToPush(l: Limits, qs: seq<Query>, q: Query, ip: Ip)
    requires Active(l)
    ensures AnswersTo(l, qs + [q], ip)
         == AnswersTo(l, qs, ip) + if q.ip == ip then [Serve(l, Run(l, qs).0, ip, q.now).1] else []
  {
    assert (qs + [q])[..|qs|] == qs;
    RunStep(l, qs, q);
  }

  lemma OwnPush(qs: seq<Query>, q: Query, ip: Ip)
    ensures Own(qs + [q], ip) == Own(qs, ip) + if q.ip == ip then [q] else []
  {
    assert (qs + [q])[..|qs|] == qs;
  }

  lemma AddressesGrow(qs: seq<Query>, q: Query)
    ensures Addresses(qs + [q]) == Addresses(qs) + {q.ip}
  {
    var all := qs + [q];
    forall ip | ip in Addresses(qs) + {q.ip} ensures ip in Addresses(all) {
      if ip == q.ip {
        assert all[|qs|].ip == ip;
      } else {
        var k :| 0 <= k < |qs| && qs[k].ip == ip;
        assert all[k].ip == ip;
      }
    }
  }

  lemma SizeOfSubset<T>(small: set<T>, large: set<T>)
    requires small <= large
    ensures |small| <= |large|
  {
    assert large == small + (large - small);
  }

  /** The map has buckets of addresses that asked. */
  lemma {:induction false} BucketsAreAsked(l: Limits, qs: seq<Query>)
    requires Active(l)
    ensures Run(l, qs).0.Keys <= Addresses(qs) && |Run(l, qs).0| <= |Addresses(qs)|
  {
    var m := Run(l, qs).0;
    if qs != [] {
      var n := |qs| - 1;
      BucketsAreAsked(l, qs[..n]);
      AddressesGrow(qs[..n], qs[n]);
      assert qs == qs[..n] + [qs[n]];
    }
    assert |m| == |m.Keys|;
    SizeOfSubset(m.Keys, Addresses(qs));
  }

  /** The run serves `ip` as a limiter that only `ip` asks. */
  ghost predicate Separate(l: Limits, qs: seq<Query>, ip: Ip)
    requires Active(l)
  {
    && Lookup(Run(l, qs).0, ip) == Lookup(Run(l, Own(qs, ip)).0, ip)
    && AnswersTo(l, qs, ip) == Run(l, Own(qs, ip)).1
  }

  lemma {:induction false} OwnIsOneAddress(qs: seq<Query>, ip: Ip)
    ensures Addresses(Own(qs, ip)) <= {ip} && forall k :: 0 <= k < |Own(qs, ip)| ==> Own(qs, ip)[k].ip == ip
  {
    if qs != [] { OwnIsOneAddress(qs[..|qs| - 1], ip); }
  }

  lemma SeparateStep(l: Limits, qs: seq<Query>, q: Query, ip: Ip)
    requires Active(l) && Separate(l, qs, ip)
    requires |Run(l, qs).0| <= PURGE_ABOVE && |Run(l, Own(qs, ip)).0| <= PURGE_ABOVE
    ensures Separate(l, qs + [q], ip)
  {
    RunStep(l, qs, q);
    OwnPush(qs, q, ip);
    AnswersToPush(l, qs, q, ip);
    if q.ip == ip {
      RunStep(l, Own(qs, ip), q);
    } else {
      assert Own(qs, ip) + [] == Own(qs, ip);
    }
  }

  /** Whatever the times, as many addresses as the map may keep do not see each other. */
  lemma {:induction false} OthersDoNotMatter(l: Limits, qs: seq<Query>, ip: Ip)
    requires Active(l) && |Addresses(qs)| <= PURGE_ABOVE
    ensures Separate(l, qs, ip)
  {
    if qs != [] {
      var n := |qs| - 1;
      AddressesGrow(qs[..n], qs[n]);
      assert qs == qs[..n] + [qs[n]];
      SizeOfSubset(Addresses(qs[..n]), Addresses(qs));
      OthersDoNotMatter(l, qs[..n], ip);
      BucketsAreAsked(l, qs[..n]);
      BucketsAreAsked(l, Own(qs[..n], ip));
      OwnIsOneAddress(qs[..n], ip);
      SizeOfSubset(Addresses(Own(qs[..n], ip)), {ip});
      SeparateStep(l, qs[..n], qs[n], ip);
    }
  }

  /** Then an address is admitted for its capacity and what the forward steps between its own requests refill. */
  lemma ForwardStepsBoundAdmissions(l: Limits, qs: seq<Query>, ip: Ip)
    requires Active(l) && |Addresses(qs)| <= PURGE_ABOVE
    ensures Count(AnswersTo(l, qs, ip)) as real <= l.capacity + Gain(l, 0.0, Travel(Own(qs, ip)))
  {
    var own := Own(qs, ip);
    OthersDoNotMatter(l, qs, ip);
    OwnIsOneAddress(qs, ip);
    OneAddressTravels(l, own, ip);
    if own == [] { GainAdds(l, 0.0, 0.0, 0.0); }
  }

  // ------------------------------------------------- more addresses than that

  const VICTIM := V6(0)

  /** One request of `VICTIM` and one of each of `n` other addresses, all at time 0. */
  function Crowd(n: nat): seq<Query> {
    if n == 0 then [Query(VICTIM, 0.0)] else Crowd(n - 1) + [Query(V4(n), 0.0)]
  }

  /** After the crowd: a late request, and one of `VICTIM` at time 0 again. */
  function Again(n: nat, late: Query): seq<Query> {
    Crowd(n) + [late] + [Query(VICTIM, 0.0)]
  }

  /** All buckets are as old as time 0, and there are `n + 1` of them. */
  ghost predicate AllAtZero(m: Buckets, n: nat) {
    && |m| == n + 1 && (forall ip :: ip in m ==> m[ip].last == 0.0)
    && forall i: nat :: V4(i) in m ==> i <= n
  }

  lemma AddBucket(m: Buckets, ip: Ip, b: Bucket)
    requires ip !in m
    ensures |m[ip := b]| == |m| + 1
  {
    assert m[ip := b].Keys == m.Keys + {ip};
  }

  lemma FreshAsk(l: Limits, now: real)
    requires Active(l)
    ensures Ask(l, None, now) == (Bucket(l.capacity - 1.0, now), Ok(l.capacity - 1.0))
  {
  }

  lemma {:induction false} CrowdArrives(l: Limits, n: nat)
    requires Active(l) && n <= PURGE_ABOVE
    ensures AllAtZero(Run(l, Crowd(n)).0, n) && AnswersTo(l, Crowd(n), VICTIM) == [Ok(l.capacity - 1.0)]
    ensures Own(Crowd(n), VICTIM) == [Query(VICTIM, 0.0)]
  {
    var before := if n == 0 then [] else Crowd(n - 1);
    var q := Query(if n == 0 then VICTIM else V4(n), 0.0);
    if n > 0 { CrowdArrives(l, n - 1); }
    assert Crowd(n) == before + [q];
    RunStep(l, before, q);
    AnswersToPush(l, before, q, VICTIM);
    OwnPush(before, q, VICTIM);
    FreshAsk(l, 0.0);
    AddBucket(Run(l, before).0, q.ip, Ask(l, None, 0.0).0);
  }

  lemma NothingStaysLate(l: Limits, m: Buckets, n: nat)
    requires Active(l) && AllAtZero(m, n) && n >= PURGE_ABOVE
    ensures Purged(l, m, 4.0 * l.window) == map[]
  {
  }

  /** A request against an empty map is admitted. */
  lemma Readmitted(l: Limits, qs: seq<Query>, ip: Ip)
    requires Active(l) && ip !in Run(l, qs).0 && |Run(l, qs).0| <= PURGE_ABOVE
    ensures AnswersTo(l, qs + [Query(ip, 0.0)], ip) == AnswersTo(l, qs, ip) + [Ok(l.capacity - 1.0)]
  {
    AnswersToPush(l, qs, Query(ip, 0.0), ip);
    FreshAsk(l, 0.0);
  }

  /**
   * One address more than the map may keep is enough: a limiter that allows one
   * request admits two although no clock step passed between them.
   */
  lemma PurgeForgetsSpending()
    ensures var qs := Again(PURGE_ABOVE, Query(V4(0), 4.0));
      && Count(AnswersTo(ONE, qs, VICTIM)) == 2
      && ONE.capacity + Gain(ONE, 0.0, Travel(Own(qs, VICTIM))) == 1.0
  {
    PurgeForgets(ONE, PURGE_ABOVE, Query(V4(0), 4.0));
    var twice := [Query(VICTIM, 0.0), Query(VICTIM, 0.0)];
    assert twice[..1] == [Query(VICTIM, 0.0)];
    CountPush([Ok(0.0)], Ok(0.0));
    CountPush([], Ok(0.0));
  }

  /** The late request leaves its own bucket only. */
  lemma LateRequest(l: Limits, qs: seq<Query>, n: nat, q: Query)
    requires Active(l) && AllAtZero(Run(l, qs).0, n) && n >= PURGE_ABOVE && q.now == 4.0 * l.window
    ensures Run(l, qs + [q]).0.Keys == {q.ip}
  {
    NothingStaysLate(l, Run(l, qs).0, n);
    RunStep(l, qs, q);
  }

  /** Before and after a late request of somebody else, whose purge empties the map. */
  lemma LateThenAgain(l: Limits, qs: seq<Query>, n: nat, late: Query, ip: Ip)
    requires Active(l) && AllAtZero(Run(l, qs).0, n) && n >= PURGE_ABOVE
    requires late.now == 4.0 * l.window && late.ip != ip
    ensures AnswersTo(l, qs + [late] + [Query(ip, 0.0)], ip) == AnswersTo(l, qs, ip) + [Ok(l.capacity - 1.0)]
    ensures Own(qs + [late] + [Query(ip, 0.0)], ip) == Own(qs, ip) + [Query(ip, 0.0)]
  {
    OwnPush(qs, late, ip);
    OwnPush(qs + [late], Query(ip, 0.0), ip);
    AnswersToPush(l, qs, late, ip);
    LateRequest(l, qs, n, late);
    assert |Run(l, qs + [late]).0.Keys| == 1;
    Readmitted(l, qs + [late], ip);
  }

  lemma PurgeForgets(l: Limits, n: nat, late: Query)
    requires Active(l) && n == PURGE_ABOVE && late.now == 4.0 * l.window && late.ip != VICTIM
    ensures AnswersTo(l, Again(n, late), VICTIM) == [Ok(l.capacity - 1.0), Ok(l.capacity - 1.0)]
    ensures Own(Again(n, late), VICTIM) == [Query(VICTIM, 0.0), Query(VICTIM, 0.0)]
  {
    CrowdArrives(l, n);
    LateThenAgain(l, Crowd(n), n, late, VICTIM);
  }
}

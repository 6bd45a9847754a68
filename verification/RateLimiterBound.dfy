/**
 When the rate holds of the limiter as it is: exactly where an hour fills a bucket. At any lower rate a
 client whose bucket was forgotten gets its whole burst again.
 */
module RateLimiterBound {
  import opened Text
  import opened RateLimiter

  /** A stretch of a client's calls, first to last, is admitted no faster than burst and rate allow. */
  ghost predicate WithinRate(c: Config, answers: seq<bool>, earlier: seq<real>, times: seq<real>)
    requires times != []
  {
    && |answers| == |earlier + times|
    && Count(answers[|earlier|..]) as real <= c.burst as real + (times[|times| - 1] - times[0]) * c.rate
  }

  /** So is every stretch of any client's calls, over any calls of any clients. */
  ghost predicate HoldsRate(c: Config) {
    forall calls, client, earlier, times
      | InTime(calls, 0.0) && times != [] && TimesOf(calls, client) == earlier + times ::
      WithinRate(c, AnswersTo(calls, Run(c, map[], calls, true), client), earlier, times)
  }

  // What one client's calls are in calls put together.

  lemma {:induction false} TimesAdd(a: seq<Call>, b: seq<Call>, client: Client)
    ensures TimesOf(a + b, client) == TimesOf(a, client) + TimesOf(b, client)
    decreases |a|
  {
    if a == [] {
      assert a + b == b;
    } else {
      assert (a + b)[1..] == a[1..] + b;
      TimesAdd(a[1..], b, client);
    }
  }

  lemma {:induction false} AnswersAdd(a: seq<Call>, ra: seq<Outcome>, b: seq<Call>, rb: seq<Outcome>, client: Client)
    requires |a| == |ra| && |b| == |rb|
    ensures AnswersTo(a + b, ra + rb, client) == AnswersTo(a, ra, client) + AnswersTo(b, rb, client)
    decreases |a|
  {
    if a == [] {
      assert a + b == b && ra + rb == rb;
    } else {
      AnswersAdd(a[1..], ra[1..], b, rb, client);
      assert (a + b)[0] == a[0] && (a + b)[1..] == a[1..] + b;
      assert (ra + rb)[0] == ra[0] && (ra + rb)[1..] == ra[1..] + rb;
      var own := if a[0].client == client then [ra[0].Admitted?] else [];
      assert AnswersTo(a + b, ra + rb, client) == own + AnswersTo(a[1..] + b, ra[1..] + rb, client);
      Associates(own, AnswersTo(a[1..], ra[1..], client), AnswersTo(b, rb, client));
    }
  }

  lemma {:induction false} CountAdds(a: seq<bool>, b: seq<bool>)
    ensures Count(a + b) == Count(a) + Count(b)
    decreases |a|
  {
    if a == [] {
      assert a + b == b;
    } else {
      assert (a + b)[1..] == a[1..] + b;
      CountAdds(a[1..], b);
    }
  }

  lemma {:induction false} OthersAreSilent(calls: seq<Call>, rs: seq<Outcome>, client: Client)
    requires |calls| == |rs| && forall i | 0 <= i < |calls| :: calls[i].client != client
    ensures TimesOf(calls, client) == [] && AnswersTo(calls, rs, client) == []
    decreases |calls|
  {
    if calls != [] {
      assert forall i | 0 <= i < |calls[1..]| :: calls[1..][i] == calls[i + 1];
      OthersAreSilent(calls[1..], rs[1..], client);
    }
  }

  lemma {:induction false} OwnBurst(client: Client, n: nat, now: real, rs: seq<Outcome>)
    requires |rs| == n && AllAdmitted(rs)
    ensures
      var times := TimesOf(Burst(client, n, now), client);
      && |times| == n && (forall i | 0 <= i < n :: times[i] == now)
      && Count(AnswersTo(Burst(client, n, now), rs, client)) == n
    decreases n
  {
    if n > 0 {
      var burst, rest := Burst(client, n, now), Burst(client, n - 1, now);
      assert burst[0] == Call(client, now) && burst[1..] == rest;
      assert rs == [rs[0]] + rs[1..];
      AllAdmittedFirst(rs[0], rs[1..]);
      OwnBurst(client, n - 1, now, rs[1..]);
      CountFirst(true, AnswersTo(rest, rs[1..], client));
    }
  }

  /** Calls of others in between leave no trace. */
  lemma OwnAround(first: seq<Call>, others: seq<Call>, last: seq<Call>, r: seq<Outcome>, ro: seq<Outcome>, r': seq<Outcome>,
                  client: Client)
    requires |r| == |first| && |ro| == |others| && |r'| == |last|
    requires forall i | 0 <= i < |others| :: others[i].client != client
    ensures TimesOf(first + others + last, client) == TimesOf(first, client) + TimesOf(last, client)
    ensures AnswersTo(first + others + last, r + ro + r', client) == AnswersTo(first, r, client) + AnswersTo(last, r', client)
  {
    OthersAreSilent(others, ro, client);
    TimesAdd(first, others, client);
    TimesAdd(first + others, last, client);
    AnswersAdd(first, r, others, ro, client);
    AnswersAdd(first + others, r + ro, last, r', client);
    assert TimesOf(first, client) + [] == TimesOf(first, client);
    assert AnswersTo(first, r, client) + [] == AnswersTo(first, r, client);
  }

  /** A client's burst, others in between, and its burst again: twice the burst is admitted. */
  lemma TwoBursts(n: nat, others: seq<Call>, later: real, r: seq<Outcome>, ro: seq<Outcome>, r': seq<Outcome>)
    requires n > 0 && |r| == |r'| == n && |ro| == |others| && AllAdmitted(r) && AllAdmitted(r')
    requires forall i | 0 <= i < |others| :: others[i].client != 0
    ensures
      var calls := Burst(0, n, 0.0) + others + Burst(0, n, later);
      var times := TimesOf(calls, 0);
      && |times| == 2 * n && times[0] == 0.0 && times[2 * n - 1] == later
      && |AnswersTo(calls, r + ro + r', 0)| == 2 * n && Count(AnswersTo(calls, r + ro + r', 0)) == 2 * n
  {
    var first, last := Burst(0, n, 0.0), Burst(0, n, later);
    OwnBurst(0, n, 0.0, r);
    OwnBurst(0, n, later, r');
    OwnAround(first, others, last, r, ro, r', 0);
    AnswersAreMany(first, r, 0);
    AnswersAreMany(last, r', 0);
    CountAdds(AnswersTo(first, r, 0), AnswersTo(last, r', 0));
  }

  lemma {:induction false} AnswersAreMany(calls: seq<Call>, rs: seq<Outcome>, client: Client)
    requires |calls| == |rs|
    ensures |AnswersTo(calls, rs, client)| == |TimesOf(calls, client)|
    decreases |calls|
  {
    if calls != [] {
      AnswersAreMany(calls[1..], rs[1..], client);
    }
  }

  /** What the evicting limiter answers: the client's first burst and its second are admitted whole. */
  lemma {:induction false} ToldTwice(c: Config) returns (r: seq<Outcome>, ro: seq<Outcome>, r': seq<Outcome>)
    requires c.burst > 0
    ensures |r| == |r'| == c.burst && |ro| == |Crowd(SWEEP_ABOVE)| && AllAdmitted(r) && AllAdmitted(r')
    ensures Run(c, map[], Telling(c), true) == r + ro + r'
  {
    var first, crowd, last := Burst(0, c.burst, 0.0), Crowd(SWEEP_ABOVE), Burst(0, c.burst, IDLE_EVICT_AFTER);
    RunAdds(c, map[], first, crowd, true);
    RunAdds(c, map[], first + crowd, last, true);
    SpentAtZero(c);
    BurstSpends(c, map[], 0, c.burst, 0.0, true);
    ForgottenBurst(c);
    r := Run(c, map[], first, true);
    ro := Run(c, After(c, map[], first, true), crowd, true);
    r' := Run(c, Spent(c), last, true);
  }

  /** Too little rate: a client has its burst twice within an hour. */
  lemma {:induction false} BurstAgain(c: Config)
    requires 0.0 <= c.rate && c.rate * IDLE_EVICT_AFTER < c.burst as real
    ensures
      var calls, times := Telling(c), TimesOf(Telling(c), 0);
      && InTime(calls, 0.0) && |times| == 2 * c.burst > 0 && times[|times| - 1] - times[0] == IDLE_EVICT_AFTER
      && Count(AnswersTo(calls, Run(c, map[], calls, true), 0)) == 2 * c.burst
  {
    assert c.burst > 0 by { Scale(c.rate, 0.0, IDLE_EVICT_AFTER); }
    EvictionSeen(c);
    var r, ro, r' := ToldTwice(c);
    CrowdIsOthers(SWEEP_ABOVE);
    TwoBursts(c.burst, Crowd(SWEEP_ABOVE), IDLE_EVICT_AFTER, r, ro, r');
  }

  lemma {:induction false} OverTheRate(c: Config, answers: seq<bool>, times: seq<real>)
    requires c.rate * IDLE_EVICT_AFTER < c.burst as real && times != []
    requires times[|times| - 1] - times[0] == IDLE_EVICT_AFTER && Count(answers) == 2 * c.burst
    ensures !WithinRate(c, answers, [], times)
  {
    assert answers[0..] == answers;
  }

  lemma {:induction false} BreaksRate(c: Config, calls: seq<Call>)
    requires 0.0 <= c.rate && c.rate * IDLE_EVICT_AFTER < c.burst as real && calls == Telling(c)
    ensures InTime(calls, 0.0) && TimesOf(calls, 0) != []
    ensures !WithinRate(c, AnswersTo(calls, Run(c, map[], calls, true), 0), [], TimesOf(calls, 0))
  {
    BurstAgain(c);
    OverTheRate(c, AnswersTo(calls, Run(c, map[], calls, true), 0), TimesOf(calls, 0));
  }

  lemma {:induction false} IsWithinRate(c: Config, calls: seq<Call>, client: Client, earlier: seq<real>, times: seq<real>)
    requires c.rate >= 0.0 && c.rate * IDLE_EVICT_AFTER >= c.burst as real && InTime(calls, 0.0)
    requires TimesOf(calls, client) == earlier + times && times != []
    ensures WithinRate(c, AnswersTo(calls, Run(c, map[], calls, true), client), earlier, times)
  {
    LimiterHoldsRate(c, calls, client, earlier, times);
  }

  /** The limiter admits no stretch of calls faster than burst and rate allow if and only if an hour at
      that rate fills a bucket. */
  lemma {:induction false} HoldsRateIff(c: Config)
    requires c.rate >= 0.0
    ensures HoldsRate(c) <==> c.rate * IDLE_EVICT_AFTER >= c.burst as real
  {
    if c.rate * IDLE_EVICT_AFTER >= c.burst as real {
      forall calls, client, earlier, times
        | InTime(calls, 0.0) && times != [] && TimesOf(calls, client) == earlier + times
        ensures WithinRate(c, AnswersTo(calls, Run(c, map[], calls, true), client), earlier, times)
      {
        IsWithinRate(c, calls, client, earlier, times);
      }
    } else {
      var calls := Telling(c);
      BreaksRate(c, calls);
      var times := TimesOf(calls, 0);
      assert [] + times == times;
    }
  }

  // ----- Stretches without an idle hour -----

  /** Less than an hour from each call to the next. */
  predicate Steady(times: seq<real>)
    decreases |times|
  {
    |times| > 1 ==> times[1] - times[0] < IDLE_EVICT_AFTER && Steady(times[1..])
  }

  /** The bucket of a client that is about to come back is not forgotten. */
  lemma {:induction false} NotForgotten(buckets: Buckets, calls: seq<Call>, client: Client, from: real)
    requires client in buckets && buckets[client].last <= from && InTime(calls, from)
    requires TimesOf(calls, client) != [] && TimesOf(calls, client)[0] - buckets[client].last < IDLE_EVICT_AFTER
    ensures client in Kept(buckets, calls[0].now, true) && Kept(buckets, calls[0].now, true)[client] == buckets[client]
  {
    TimesRise(calls[1..], client, calls[0].now);
  }

  /** What one call does to a client that is served by bucket `b`. */
  lemma {:induction false} OwnStep(c: Config, buckets: Buckets, calls: seq<Call>, client: Client, b: Bucket)
    requires calls != []
    requires
      var kept := Kept(buckets, calls[0].now, true);
      if client in kept then kept[client] == b else calls[0].client == client && b == Fresh(c, calls[0].now)
    ensures
      var after, rest := Admit(c, buckets, calls[0], true).0, calls[1..];
      var answers := AnswersTo(rest, Run(c, after, rest, true), client);
      && client in after
      && if calls[0].client == client then
           var (next, ok) := TryConsume(c, b, calls[0].now);
           && after[client] == next && TimesOf(calls, client) == [calls[0].now] + TimesOf(rest, client)
           && AnswersTo(calls, Run(c, buckets, calls, true), client) == [ok] + answers
         else
           && after[client] == b && TimesOf(calls, client) == TimesOf(rest, client)
           && AnswersTo(calls, Run(c, buckets, calls, true), client) == answers
  {
    var (after, r) := Admit(c, buckets, calls[0], true);
    var rest, rs := calls[1..], Run(c, buckets, calls, true);
    assert rs == [r] + Run(c, after, rest, true) && rs[1..] == Run(c, after, rest, true);
    if calls[0].client != client {
      assert TimesOf(calls, client) == [] + TimesOf(rest, client) == TimesOf(rest, client);
      var answers := AnswersTo(rest, rs[1..], client);
      assert AnswersTo(calls, rs, client) == [] + answers == answers;
    }
  }

  /** Such a client is served by its own bucket, sweep and all. */
  lemma {:induction false} OwnBucketStays(c: Config, buckets: Buckets, calls: seq<Call>, client: Client, from: real)
    requires client in buckets && buckets[client].last <= from && InTime(calls, from)
    requires Steady([buckets[client].last] + TimesOf(calls, client))
    ensures AnswersTo(calls, Run(c, buckets, calls, true), client) == Drain(c, buckets[client], TimesOf(calls, client))
    decreases |calls|
  {
    var times := TimesOf(calls, client);
    AnswersAreMany(calls, Run(c, buckets, calls, true), client);
    if times != [] {
      var b, call := buckets[client], calls[0];
      assert ([b.last] + times)[1..] == times;
      NotForgotten(buckets, calls, client, from);
      OwnStep(c, buckets, calls, client, b);
      var after := Admit(c, buckets, call, true).0;
      if call.client == client {
        assert times == [after[client].last] + TimesOf(calls[1..], client) && times[1..] == TimesOf(calls[1..], client);
      }
      OwnBucketStays(c, after, calls[1..], client, call.now);
    }
  }

  /** A stretch that starts now is served by one bucket, whatever was forgotten before. */
  lemma {:induction false} StretchStarts(c: Config, buckets: Buckets, calls: seq<Call>, client: Client, from: real)
    returns (b: Bucket)
    requires c.rate >= 0.0 && AllHold(c, buckets, from) && InTime(calls, from)
    requires calls != [] && calls[0].client == client && Steady(TimesOf(calls, client))
    ensures Holds(c, b, calls[0].now)
    ensures AnswersTo(calls, Run(c, buckets, calls, true), client) == Drain(c, b, TimesOf(calls, client))
  {
    var call, rest := calls[0], calls[1..];
    var kept := Kept(buckets, call.now, true);
    b := if client in kept then kept[client] else Fresh(c, call.now);
    OwnStep(c, buckets, calls, client, b);
    var after := Admit(c, buckets, call, true).0;
    var times := TimesOf(calls, client);
    assert times[1..] == TimesOf(rest, client);
    OwnBucketStays(c, after, rest, client, call.now);
  }

  lemma {:induction false} HoldsAtStep(c: Config, buckets: Buckets, call: Call, from: real)
    requires c.rate >= 0.0 && AllHold(c, buckets, from) && from <= call.now
    ensures AllHold(c, Admit(c, buckets, call, true).0, call.now)
  {
    assert AllHold(c, Kept(buckets, call.now, true), call.now);
    ServeHolds(c, Kept(buckets, call.now, true), call, call.now);
  }

  /** One call before the stretch. */
  lemma {:induction false} StepOfStretch(c: Config, buckets: Buckets, calls: seq<Call>, client: Client,
                                         earlier: seq<real>, times: seq<real>)
    requires calls != [] && TimesOf(calls, client) == earlier + times && times != []
    requires calls[0].client == client ==> earlier != []
    ensures
      var after, rest := Admit(c, buckets, calls[0], true).0, calls[1..];
      var answers := AnswersTo(rest, Run(c, after, rest, true), client);
      if calls[0].client == client then
        && TimesOf(rest, client) == earlier[1..] + times
        && exists ok :: AnswersTo(calls, Run(c, buckets, calls, true), client) == [ok] + answers
      else
        && TimesOf(rest, client) == earlier + times
        && AnswersTo(calls, Run(c, buckets, calls, true), client) == answers
  {
    var (after, r) := Admit(c, buckets, calls[0], true);
    var rest, rs := calls[1..], Run(c, buckets, calls, true);
    assert rs == [r] + Run(c, after, rest, true) && rs[1..] == Run(c, after, rest, true);
    var answers, later := AnswersTo(rest, rs[1..], client), TimesOf(rest, client);
    if calls[0].client == client {
      assert AnswersTo(calls, rs, client) == [r.Admitted?] + answers;
      assert [calls[0].now] + later == earlier + times && ([calls[0].now] + later)[1..] == later;
      assert (earlier + times)[1..] == earlier[1..] + times;
    } else {
      assert [] + later == later && AnswersTo(calls, rs, client) == [] + answers == answers;
    }
  }

  lemma WithinLater(c: Config, answers: seq<bool>, rest: seq<bool>, earlier: seq<real>, others: seq<real>, times: seq<real>)
    requires times != [] && WithinRate(c, rest, others, times)
    requires (answers == rest && earlier == others) || (earlier != [] && others == earlier[1..] && exists ok :: answers == [ok] + rest)
    ensures WithinRate(c, answers, earlier, times)
  {
    if answers != rest || earlier != others {
      assert answers[|earlier|..] == rest[|others|..];
    }
  }

  /** At any rate, a stretch of a client's calls without an idle hour in it is admitted no faster than
      burst and rate allow, whatever came before it. */
  lemma {:induction false} SteadyHoldsRate(c: Config, buckets: Buckets, calls: seq<Call>, client: Client, from: real,
                                           earlier: seq<real>, times: seq<real>)
    requires c.rate >= 0.0 && AllHold(c, buckets, from) && InTime(calls, from)
    requires TimesOf(calls, client) == earlier + times && times != [] && Steady(times)
    ensures WithinRate(c, AnswersTo(calls, Run(c, buckets, calls, true), client), earlier, times)
    decreases |calls|
  {
    var call, rest := calls[0], calls[1..];
    var own, answers := call.client == client, AnswersTo(calls, Run(c, buckets, calls, true), client);
    if own && earlier == [] {
      assert earlier + times == times;
      var b := StretchStarts(c, buckets, calls, client, from);
      TimesRise(calls, client, call.now);
      RateHolds(c, b, earlier, times);
    } else {
      HoldsAtStep(c, buckets, call, from);
      var others := if own then earlier[1..] else earlier;
      StepOfStretch(c, buckets, calls, client, earlier, times);
      SteadyHoldsRate(c, Admit(c, buckets, call, true).0, rest, client, call.now, others, times);
      WithinLater(c, answers, AnswersTo(rest, Run(c, Admit(c, buckets, call, true).0, rest, true), client), earlier, others, times);
    }
  }

  lemma {:induction false} ShortIsSteady(times: seq<real>, from: real)
    requires times != [] && Rising(times, from) && times[|times| - 1] - times[0] < IDLE_EVICT_AFTER
    ensures Steady(times)
    decreases |times|
  {
    if |times| > 1 {
      LastIsLatest(times, from);
      ShortIsSteady(times[1..], times[0]);
    }
  }

  lemma {:induction false} RisingEnd(earlier: seq<real>, times: seq<real>, from: real)
    requires Rising(earlier + times, from) && times != []
    ensures Rising(times, times[0])
    decreases |earlier|
  {
    if earlier == [] {
      assert earlier + times == times;
    } else {
      assert (earlier + times)[1..] == earlier[1..] + times;
      RisingEnd(earlier[1..], times, earlier[0]);
    }
  }

  /** So is any stretch shorter than an hour, at any rate: only an idle hour gives a burst back. */
  lemma {:induction false} ShortStretchHoldsRate(c: Config, calls: seq<Call>, client: Client, earlier: seq<real>, times: seq<real>)
    requires c.rate >= 0.0 && InTime(calls, 0.0) && TimesOf(calls, client) == earlier + times
    requires times != [] && times[|times| - 1] - times[0] < IDLE_EVICT_AFTER
    ensures WithinRate(c, AnswersTo(calls, Run(c, map[], calls, true), client), earlier, times)
  {
    TimesRise(calls, client, 0.0);
    RisingEnd(earlier, times, 0.0);
    ShortIsSteady(times, times[0]);
    SteadyHoldsRate(c, map[], calls, client, 0.0, earlier, times);
  }
}

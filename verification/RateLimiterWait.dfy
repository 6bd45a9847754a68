/**
 Whether the limiter, sweep and all, keeps its word to a client it refuses: that it is refused until the
 wait it was told is over and admitted from then on, and that a client told no wait is never admitted.
 Exactly where a forgotten client could not have had a token anyway does it keep it.
 */
module RateLimiterWait {
  import opened Text
  import opened RateLimiter

  /** By what it was told at `from`, a client may go at `now`. */
  predicate Due(wait: Option<real>, from: real, now: real) {
    wait.Some? && now >= from + wait.value
  }

  /** The calls before a refusal, the refused one, those after it and one more of the same client. */
  function Scene(earlier: seq<Call>, refused: Call, between: seq<Call>, next: Call): seq<Call> {
    earlier + ([refused] + (between + [next]))
  }

  /** If the call was refused, and the client came back only before its time and then with `next`: the calls
      before its time are refused, and `next` is admitted exactly if its time has come. */
  ghost predicate WordKept(c: Config, earlier: seq<Call>, refused: Call, between: seq<Call>, next: Call) {
    var rs := Run(c, map[], Scene(earlier, refused, between, next), true);
    var r := rs[|earlier|];
    && (r.Refused? && (forall k | k in between && k.client == next.client :: !Due(r.wait, refused.now, k.now)) ==>
          && (forall i | 0 <= i < |between| && between[i].client == next.client :: rs[|earlier| + 1 + i].Refused?)
          && rs[|earlier| + 1 + |between|].Admitted? == Due(r.wait, refused.now, next.now))
  }

  ghost predicate KeepsItsWord(c: Config) {
    forall earlier, refused, between, next
      | InTime(Scene(earlier, refused, between, next), 0.0) && next.client == refused.client ::
      WordKept(c, earlier, refused, between, next)
  }

  // ----- A client that was refused -----

  /** A client that was refused, and when it may go again. */
  predicate Told(c: Config, b: Bucket, deadline: real) {
    0.0 <= b.tokens < 1.0 && WaitFor(c, b).Some? && b.last + WaitFor(c, b).value == deadline
  }

  /** It was told when it may go again, or that time has come and it was forgotten. */
  predicate Pending(c: Config, buckets: Buckets, client: Client, deadline: real, now: real) {
    if client in buckets then Told(c, buckets[client], deadline) && buckets[client].last <= now else deadline <= now
  }

  /** An hour at the rate gives a token: no one is forgotten before its time. */
  predicate TokenAnHour(c: Config) { c.rate * IDLE_EVICT_AFTER >= 1.0 && c.burst >= 1 }

  lemma {:induction false} RateIsPositive(c: Config)
    requires TokenAnHour(c)
    ensures c.rate > 0.0
  {
    if c.rate <= 0.0 {
      Scale(-c.rate, 0.0, IDLE_EVICT_AFTER);
    }
  }

  lemma {:induction false} DueWithinTheHour(c: Config, b: Bucket, deadline: real)
    requires TokenAnHour(c) && Told(c, b, deadline)
    ensures deadline <= b.last + IDLE_EVICT_AFTER
  {
    RateIsPositive(c);
    WaitIs(c, b, b.last + IDLE_EVICT_AFTER);
  }

  /** Sweeping forgets a refused client only when its time has come. */
  lemma {:induction false} SweepKeepsPending(c: Config, buckets: Buckets, client: Client, deadline: real, from: real, now: real)
    requires TokenAnHour(c) && Pending(c, buckets, client, deadline, from) && from <= now
    ensures Pending(c, Kept(buckets, now, true), client, deadline, now)
  {
    if client in buckets {
      DueWithinTheHour(c, buckets[client], deadline);
    }
  }

  /** One more call before the deadline, of whichever client: that deadline stands. */
  lemma {:induction false} ServeKeepsPending(c: Config, kept: Buckets, call: Call, client: Client, deadline: real)
    requires TokenAnHour(c) && Pending(c, kept, client, deadline, call.now)
    requires call.client == client ==> call.now < deadline
    ensures
      var (after, r) := Serve(c, kept, call);
      Pending(c, after, client, deadline, call.now) && (call.client == client ==> r.Refused?)
  {
    RateIsPositive(c);
    if call.client == client {
      var b := kept[client];
      WaitIs(c, b, call.now);
      RefusedFills(c, b, call.now, call.now);
      SameDeadline(c, b, call.now);
      Scale(c.rate, 0.0, Elapsed(b, call.now));
    }
  }

  /** The client's first call from its deadline on proceeds, and none before. */
  lemma {:induction false} ServeAtDeadline(c: Config, kept: Buckets, call: Call, deadline: real)
    requires TokenAnHour(c) && Pending(c, kept, call.client, deadline, call.now)
    ensures Serve(c, kept, call).1.Admitted? == (call.now >= deadline)
  {
    RateIsPositive(c);
    if call.client in kept {
      var b := kept[call.client];
      WaitIs(c, b, call.now);
      RefusedFills(c, b, call.now, call.now);
    }
  }

  lemma {:induction false} DeadlineIsKept(c: Config, buckets: Buckets, between: seq<Call>, next: Call, deadline: real, from: real)
    requires TokenAnHour(c) && Pending(c, buckets, next.client, deadline, from) && InTime(between + [next], from)
    requires forall k | k in between && k.client == next.client :: k.now < deadline
    ensures
      var rs := Run(c, buckets, between + [next], true);
      && (forall i | 0 <= i < |between| && between[i].client == next.client :: rs[i].Refused?)
      && rs[|between|].Admitted? == (next.now >= deadline)
    decreases |between|
  {
    if between == [] {
      assert between + [next] == [next];
      SweepKeepsPending(c, buckets, next.client, deadline, from, next.now);
      ServeAtDeadline(c, Kept(buckets, next.now, true), next, deadline);
    } else {
      var call, rest := between[0], between[1..];
      assert (between + [next])[0] == call && (between + [next])[1..] == rest + [next];
      SweepKeepsPending(c, buckets, next.client, deadline, from, call.now);
      ServeKeepsPending(c, Kept(buckets, call.now, true), call, next.client, deadline);
      var (after, r) := Admit(c, buckets, call, true);
      DeadlineIsKept(c, after, rest, next, deadline, call.now);
      assert Run(c, buckets, between + [next], true) == [r] + Run(c, after, rest + [next], true);
    }
  }

  // ----- A run up to the refusal -----

  lemma {:induction false} InTimeAfter(earlier: seq<Call>, calls: seq<Call>, from: real)
    requires InTime(earlier + calls, from) && calls != []
    ensures InTime(calls, calls[0].now)
    decreases |earlier|
  {
    if earlier == [] {
      assert earlier + calls == calls;
    } else {
      assert (earlier + calls)[1..] == earlier[1..] + calls;
      InTimeAfter(earlier[1..], calls, earlier[0].now);
    }
  }

  lemma {:induction false} HoldsLater(c: Config, buckets: Buckets, from: real, now: real)
    requires AllHold(c, buckets, from) && from <= now
    ensures AllHold(c, Kept(buckets, now, true), now)
  {}

  lemma {:induction false} AllHoldAfter(c: Config, buckets: Buckets, earlier: seq<Call>, calls: seq<Call>, from: real)
    requires c.rate >= 0.0 && AllHold(c, buckets, from) && InTime(earlier + calls, from) && calls != []
    ensures AllHold(c, After(c, buckets, earlier, true), calls[0].now)
    decreases |earlier|
  {
    if earlier == [] {
      assert earlier + calls == calls;
    } else {
      var call := earlier[0];
      assert (earlier + calls)[0] == call && (earlier + calls)[1..] == earlier[1..] + calls;
      HoldsLater(c, buckets, from, call.now);
      ServeHolds(c, Kept(buckets, call.now, true), call, call.now);
      AllHoldAfter(c, Admit(c, buckets, call, true).0, earlier[1..], calls, call.now);
    }
  }

  /** A refusal leaves the client told: its bucket names the wait in the answer. */
  lemma {:induction false} RefusedIsTold(c: Config, buckets: Buckets, call: Call)
    requires c.rate > 0.0 && c.burst >= 1 && AllHold(c, buckets, call.now) && Admit(c, buckets, call, true).1.Refused?
    ensures
      var (after, r) := Admit(c, buckets, call, true);
      r.wait.Some? && Pending(c, after, call.client, call.now + r.wait.value, call.now)
  {
    HoldsLater(c, buckets, call.now, call.now);
    ServeHolds(c, Kept(buckets, call.now, true), call, call.now);
  }

  /** From a refusal on. */
  lemma {:induction false} AfterRefusal(c: Config, buckets: Buckets, refused: Call, between: seq<Call>, next: Call)
    requires TokenAnHour(c) && AllHold(c, buckets, refused.now) && next.client == refused.client
    requires InTime([refused] + (between + [next]), refused.now) && Admit(c, buckets, refused, true).1.Refused?
    ensures
      var (after, r) := Admit(c, buckets, refused, true);
      var rs := Run(c, after, between + [next], true);
      && r.wait.Some?
      && ((forall k | k in between && k.client == next.client :: !Due(r.wait, refused.now, k.now)) ==>
            && (forall i | 0 <= i < |between| && between[i].client == next.client :: rs[i].Refused?)
            && rs[|between|].Admitted? == Due(r.wait, refused.now, next.now))
  {
    RateIsPositive(c);
    RefusedIsTold(c, buckets, refused);
    var (after, r) := Admit(c, buckets, refused, true);
    assert ([refused] + (between + [next]))[1..] == between + [next];
    if forall k | k in between && k.client == next.client :: !Due(r.wait, refused.now, k.now) {
      DeadlineIsKept(c, after, between, next, refused.now + r.wait.value, refused.now);
    }
  }

  /** What the limiter answers in a scene, from the refusal on. */
  lemma {:induction false} RunOfScene(c: Config, earlier: seq<Call>, refused: Call, later: seq<Call>)
    ensures
      var buckets := After(c, map[], earlier, true);
      var (after, r) := Admit(c, buckets, refused, true);
      var rs := Run(c, map[], earlier + ([refused] + later), true);
      && |rs| == |earlier| + 1 + |later| && rs[|earlier|] == r
      && (forall i | 0 <= i < |later| :: rs[|earlier| + 1 + i] == Run(c, after, later, true)[i])
  {
    var calls := [refused] + later;
    RunAdds(c, map[], earlier, calls, true);
    assert calls[0] == refused && calls[1..] == later;
    var (after, r) := Admit(c, After(c, map[], earlier, true), refused, true);
    assert Run(c, map[], earlier + calls, true) == Run(c, map[], earlier, true) + ([r] + Run(c, after, later, true));
  }

  /** Where an hour gives a token: a client that is refused is told its wait. Whatever it and all the others
      ask before that is over, it is refused, and its first request from then on proceeds. */
  lemma {:induction false} LimiterTellsTheWait(c: Config, earlier: seq<Call>, refused: Call, between: seq<Call>, next: Call)
    requires TokenAnHour(c) && InTime(Scene(earlier, refused, between, next), 0.0) && next.client == refused.client
    ensures Run(c, map[], Scene(earlier, refused, between, next), true)[|earlier|].Refused? ==>
            Run(c, map[], Scene(earlier, refused, between, next), true)[|earlier|].wait.Some?
    ensures WordKept(c, earlier, refused, between, next)
  {
    var later := between + [next];
    var buckets := After(c, map[], earlier, true);
    var (after, r) := Admit(c, buckets, refused, true);
    RunOfScene(c, earlier, refused, later);
    AllHoldAfter(c, map[], earlier, [refused] + later, 0.0);
    InTimeAfter(earlier, [refused] + later, 0.0);
    if r.Refused? {
      AfterRefusal(c, buckets, refused, between, next);
    }
  }

  // ----- Where the word is broken -----

  lemma {:induction false} NotYet(c: Config)
    requires 0.0 <= c.rate && c.rate * IDLE_EVICT_AFTER < 1.0
    ensures !Due(WaitFor(c, Bucket(0.0, 0.0)), 0.0, IDLE_EVICT_AFTER)
  {
    if c.rate > 0.0 {
      WaitIs(c, Bucket(0.0, 0.0), IDLE_EVICT_AFTER);
    }
  }

  /** A client that spent all it had, a crowd of others, and the client an hour later: it was forgotten. */
  lemma {:induction false} AfterCrowd(c: Config, spent: Buckets, crowd: seq<Call>, next: Call)
    requires c.burst >= 1 && spent == map[0 := Bucket(0.0, 0.0)]
    requires crowd == Crowd(SWEEP_ABOVE) && next == Call(0, IDLE_EVICT_AFTER)
    ensures Run(c, spent, crowd + [next], true)[|crowd|].Admitted?
  {
    var b := TryConsume(c, Fresh(c, 0.0), 0.0).0;
    CrowdAtZero(SWEEP_ABOVE);
    SameAtZero(c, spent, crowd);
    CrowdLeaves(c, spent, b, SWEEP_ABOVE);
    CrowdGrows(spent, b, SWEEP_ABOVE);
    var full := After(c, spent, crowd, true);
    assert Kept(full, IDLE_EVICT_AFTER, true) == map[];
    RunAdds(c, spent, crowd, [next], true);
    assert Run(c, full, [next], true)[0] == Admit(c, full, next, true).1;
  }

  lemma {:induction false} SpentIsRefused(c: Config, spent: Buckets, call: Call)
    requires c.burst >= 1 && spent == map[0 := Bucket(0.0, 0.0)] && call == Call(0, 0.0)
    ensures Admit(c, spent, call, true) == (spent, Refused(WaitFor(c, Bucket(0.0, 0.0))))
  {
    var b := Bucket(0.0, 0.0);
    assert Kept(spent, 0.0, true) == spent;
    assert Elapsed(b, 0.0) * c.rate == 0.0;
    assert TryConsume(c, b, 0.0) == (b, false);
    assert spent[0 := b] == spent;
  }

  lemma {:induction false} LastInTime(first: seq<Call>, call: Call, others: seq<Call>, next: Call)
    requires forall i | 0 <= i < |first| :: first[i].now == 0.0
    requires forall i | 0 <= i < |others| :: others[i].now == 0.0
    requires call.now == 0.0 <= next.now
    ensures InTime(first + ([call] + (others + [next])), 0.0)
  {
    var all := first + [call] + others;
    OneTime(all, 0.0);
    OneTime([next], next.now);
    JoinInTime(all, [next], 0.0, next.now);
    assert first + ([call] + (others + [next])) == all + [next];
  }

  lemma {:induction false} CrowdInTime(c: Config, calls: seq<Call>)
    requires calls == Burst(0, c.burst, 0.0) + ([Call(0, 0.0)] + (Crowd(SWEEP_ABOVE) + [Call(0, IDLE_EVICT_AFTER)]))
    ensures InTime(calls, 0.0)
  {
    CrowdAtZero(SWEEP_ABOVE);
    LastInTime(Burst(0, c.burst, 0.0), Call(0, 0.0), Crowd(SWEEP_ABOVE), Call(0, IDLE_EVICT_AFTER));
  }

  lemma {:induction false} AdmittedEarly(c: Config, earlier: seq<Call>, refused: Call, between: seq<Call>, next: Call)
    requires forall k | k in between :: k.client != next.client
    requires
      var (after, r) := Admit(c, After(c, map[], earlier, true), refused, true);
      && r.Refused? && !Due(r.wait, refused.now, next.now)
      && Run(c, after, between + [next], true)[|between|].Admitted?
    ensures !WordKept(c, earlier, refused, between, next)
  {
    RunOfScene(c, earlier, refused, between + [next]);
  }

  /** Less than a token an hour: a client that spent all it had and was refused is forgotten, among a crowd
      of others, before its time, and is admitted. */
  lemma {:induction false} ForgottenEarly(c: Config, earlier: seq<Call>, refused: Call, between: seq<Call>, next: Call)
    requires c.burst >= 1 && 0.0 <= c.rate && c.rate * IDLE_EVICT_AFTER < 1.0
    requires earlier == Burst(0, c.burst, 0.0) && refused == Call(0, 0.0)
    requires between == Crowd(SWEEP_ABOVE) && next == Call(0, IDLE_EVICT_AFTER)
    ensures InTime(Scene(earlier, refused, between, next), 0.0) && !WordKept(c, earlier, refused, between, next)
  {
    CrowdInTime(c, Scene(earlier, refused, between, next));
    var spent := map[0 := Bucket(0.0, 0.0)];
    BurstSpends(c, map[], 0, c.burst, 0.0, true);
    assert After(c, map[], earlier, true) == spent;
    SpentIsRefused(c, spent, refused);
    NotYet(c);
    CrowdIsOthers(SWEEP_ABOVE);
    AfterCrowd(c, spent, between, next);
    AdmittedEarly(c, earlier, refused, between, next);
  }

  predicate IsNo(c: Config, r: Outcome) {
    r.Refused? && (c.rate <= 0.0 ==> r.wait == None)
  }

  predicate AllNo(c: Config, rs: seq<Outcome>) {
    forall i | 0 <= i < |rs| :: IsNo(c, rs[i])
  }

  lemma {:induction false} NoIsFirst(c: Config, r: Outcome, rs: seq<Outcome>)
    requires IsNo(c, r) && AllNo(c, rs)
    ensures AllNo(c, [r] + rs)
  {}

  /** Without a burst nothing is ever admitted, and without a refill no wait is ever told. */
  lemma {:induction false} NothingIsAdmitted(c: Config, buckets: Buckets, calls: seq<Call>)
    requires c.burst == 0
    ensures AllNo(c, Run(c, buckets, calls, true))
    decreases |calls|
  {
    if calls != [] {
      var (after, r) := Admit(c, buckets, calls[0], true);
      NothingIsAdmitted(c, after, calls[1..]);
      NoIsFirst(c, r, Run(c, after, calls[1..], true));
    }
  }

  lemma {:induction false} NeverToldNeverAdmitted(c: Config, earlier: seq<Call>, refused: Call, between: seq<Call>, next: Call)
    requires c.burst == 0 && c.rate == 0.0
    ensures WordKept(c, earlier, refused, between, next)
  {
    NothingIsAdmitted(c, map[], Scene(earlier, refused, between, next));
  }

  /** A wait is told for a token that a bucket without room never holds. */
  lemma {:induction false} ToldInVain(c: Config, refused: Call, next: Call)
    requires c.burst == 0 && c.rate > 0.0 && refused == Call(0, 0.0) && next == Call(0, 1.0 / c.rate)
    ensures InTime(Scene([], refused, [], next), 0.0) && !WordKept(c, [], refused, [], next)
  {
    var calls := Scene([], refused, [], next);
    assert calls == [refused, next] && calls[1..] == [next] && [next][1..] == [];
    assert 1.0 / c.rate > 0.0;
    NothingIsAdmitted(c, map[], calls);
    assert After(c, map[], [], true) == map[];
    RunOfScene(c, [], refused, [] + [next]);
    assert Admit(c, map[], refused, true).1 == Refused(Some(1.0 / c.rate));
  }

  /** When the limiter can keep its word: an hour gives a token, or it holds none and says so. */
  predicate CanKeepItsWord(c: Config) {
    if c.burst == 0 then c.rate == 0.0 else c.rate * IDLE_EVICT_AFTER >= 1.0
  }

  lemma {:induction false} KeepsItsWordIf(c: Config)
    requires c.rate >= 0.0 && CanKeepItsWord(c)
    ensures KeepsItsWord(c)
  {
    forall earlier, refused, between, next
      | InTime(Scene(earlier, refused, between, next), 0.0) && next.client == refused.client
      ensures WordKept(c, earlier, refused, between, next)
    {
      if c.burst == 0 {
        NeverToldNeverAdmitted(c, earlier, refused, between, next);
      } else {
        LimiterTellsTheWait(c, earlier, refused, between, next);
      }
    }
  }

  /** The limiter keeps its word to every client it refuses, over any calls of any clients, if and only if
      an hour at its rate gives a token, or it admits nothing and tells no wait. */
  lemma {:induction false} KeepsItsWordIff(c: Config)
    requires c.rate >= 0.0
    ensures KeepsItsWord(c) <==> CanKeepItsWord(c)
  {
    if CanKeepItsWord(c) {
      KeepsItsWordIf(c);
    } else if c.burst == 0 {
      ToldInVain(c, Call(0, 0.0), Call(0, 1.0 / c.rate));
    } else {
      ForgottenEarly(c, Burst(0, c.burst, 0.0), Call(0, 0.0), Crowd(SWEEP_ABOVE), Call(0, IDLE_EVICT_AFTER));
    }
  }
}

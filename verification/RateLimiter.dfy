/**
 A token bucket per client, and the sweep that forgets buckets left idle. Three claims: how fast a
 client can go over any stretch of time; that the wait a refused client is told is the wait it has;
 and when forgetting a bucket goes unseen, which depends on the configuration.

 Time and tokens are real numbers. The clock does not run backwards from one call to the next.
 */
module RateLimiter {
  import opened Text

  datatype Config = Config(burst: nat, rate: real)
  datatype Bucket = Bucket(tokens: real, last: real)
  datatype Outcome = Admitted | Refused(wait: Option<real>)
  datatype Call = Call(client: Client, now: real)

  const IDLE_EVICT_AFTER := 3600.0
  const SWEEP_ABOVE := 4096

  /** Clients are told apart by their ids, and by nothing else. */
  type Client = nat

  type Buckets = map<Client, Bucket>

  function Min(a: real, b: real): real { if a <= b then a else b }

  function Elapsed(b: Bucket, now: real): (r: real)
    ensures r >= 0.0
  {
    if now > b.last then now - b.last else 0.0
  }

  function Fresh(c: Config, now: real): Bucket { Bucket(c.burst as real, now) }

  function Refill(c: Config, b: Bucket, now: real): Bucket {
    Bucket(Min(b.tokens + Elapsed(b, now) * c.rate, c.burst as real), now)
  }

  /** One token taken if there is one, after crediting the time since the last call. */
  function TryConsume(c: Config, b: Bucket, now: real): (Bucket, bool) {
    var r := Refill(c, b, now);
    if r.tokens >= 1.0 then (r.(tokens := r.tokens - 1.0), true) else (r, false)
  }

  /** The wait until a token is there; none for a bucket that never refills. */
  function WaitFor(c: Config, b: Bucket): Option<real> {
    if c.rate <= 0.0 then None
    else
      var w := (1.0 - b.tokens) / c.rate;
      Some(if w >= 0.0 then w else 0.0)
  }

  function Answer(c: Config, b: Bucket, ok: bool): Outcome {
    if ok then Admitted else Refused(WaitFor(c, b))
  }

  function Sweep(buckets: Buckets, now: real): Buckets {
    map id | id in buckets && Elapsed(buckets[id], now) < IDLE_EVICT_AFTER :: buckets[id]
  }

  /** The buckets a call finds: all of them, or (`evicting`) those a sweep leaves. */
  function Kept(buckets: Buckets, now: real, evicting: bool): Buckets {
    if evicting && |buckets| > SWEEP_ABOVE then Sweep(buckets, now) else buckets
  }

  function Serve(c: Config, kept: Buckets, call: Call): (Buckets, Outcome) {
    var b := if call.client in kept then kept[call.client] else Fresh(c, call.now);
    var (after, ok) := TryConsume(c, b, call.now);
    (kept[call.client := after], Answer(c, after, ok))
  }

  function Admit(c: Config, buckets: Buckets, call: Call, evicting: bool): (Buckets, Outcome) {
    Serve(c, Kept(buckets, call.now, evicting), call)
  }

  class Limiter {
    const config: Config
    var buckets: Buckets

    constructor (c: Config)
      ensures config == c && buckets == map[]
    {
      config, buckets := c, map[];
    }

    /** Whether a request may proceed, and if not, how long until it may. */
    method AdmitCall(client: Client, now: real) returns (r: Outcome)
      modifies this
      ensures (buckets, r) == Admit(config, old(buckets), Call(client, now), true)
    {
      if |buckets| > SWEEP_ABOVE {
        buckets := map id | id in buckets && Elapsed(buckets[id], now) < IDLE_EVICT_AFTER :: buckets[id];
      }
      ghost var kept := buckets;
      if client !in buckets {
        buckets := buckets[client := Fresh(config, now)];
      }
      var (after, ok) := TryConsume(config, buckets[client], now);
      buckets := buckets[client := after];
      assert buckets == kept[client := after];
      if ok {
        return Admitted;
      }
      return Refused(WaitFor(config, after));
    }
  }

  // ----- Runs -----

  function Run(c: Config, buckets: Buckets, calls: seq<Call>, evicting: bool): (r: seq<Outcome>)
    ensures |r| == |calls|
    decreases |calls|
  {
    if calls == [] then []
    else
      var (after, r) := Admit(c, buckets, calls[0], evicting);
      [r] + Run(c, after, calls[1..], evicting)
  }

  /** The clock does not run backwards. */
  predicate InTime(calls: seq<Call>, from: real)
    decreases |calls|
  {
    calls != [] ==> from <= calls[0].now && InTime(calls[1..], calls[0].now)
  }

  lemma Scale(rate: real, a: real, b: real)
    requires rate >= 0.0 && a <= b
    ensures a * rate <= b * rate
  {}

  lemma AddScale(rate: real, a: real, b: real)
    ensures (a + b) * rate == a * rate + b * rate
  {}

  /** A bucket that is in order: never below nothing, never above its capacity. */
  predicate Holds(c: Config, b: Bucket, from: real) {
    0.0 <= b.tokens <= c.burst as real && b.last <= from
  }

  ghost predicate AllHold(c: Config, buckets: Buckets, from: real) {
    forall id | id in buckets :: Holds(c, buckets[id], from)
  }

  lemma ConsumeHolds(c: Config, b: Bucket, from: real, now: real)
    requires c.rate >= 0.0 && Holds(c, b, from) && from <= now
    ensures Holds(c, TryConsume(c, b, now).0, now)
  {
    Scale(c.rate, 0.0, Elapsed(b, now));
  }

  // ----- When forgetting goes unseen -----

  /** The evicting limiter has forgotten only buckets that are as good as new. */
  ghost predicate Alike(c: Config, swept: Buckets, all: Buckets, from: real) {
    && (forall id | id in swept :: id in all && swept[id] == all[id])
    && (forall id | id in all && id !in swept :: all[id].last + IDLE_EVICT_AFTER <= from)
  }

  /** A bucket idle for that long is full again, if the rate fills it in that time. */
  lemma IdleIsFull(c: Config, b: Bucket, now: real)
    requires c.rate * IDLE_EVICT_AFTER >= c.burst as real && c.rate >= 0.0
    requires 0.0 <= b.tokens && b.last + IDLE_EVICT_AFTER <= now
    ensures Refill(c, b, now) == Refill(c, Fresh(c, now), now)
  {
    Scale(c.rate, IDLE_EVICT_AFTER, Elapsed(b, now));
  }

  lemma SweepAlike(c: Config, swept: Buckets, all: Buckets, from: real, now: real)
    requires Alike(c, swept, all, from) && from <= now
    ensures Alike(c, Kept(swept, now, true), all, now)
  {
    var kept := Kept(swept, now, true);
    forall id | id in all && id !in kept
      ensures all[id].last + IDLE_EVICT_AFTER <= now
    {
      if id in swept {
        assert swept[id] == all[id];
      }
    }
  }

  lemma ServeAlike(c: Config, kept: Buckets, all: Buckets, call: Call)
    requires c.rate * IDLE_EVICT_AFTER >= c.burst as real && c.rate >= 0.0
    requires Alike(c, kept, all, call.now) && AllHold(c, all, call.now)
    ensures Serve(c, kept, call).1 == Serve(c, all, call).1
    ensures Alike(c, Serve(c, kept, call).0, Serve(c, all, call).0, call.now)
  {
    var id := call.client;
    if id !in kept && id in all {
      IdleIsFull(c, all[id], call.now);
      assert TryConsume(c, all[id], call.now) == TryConsume(c, Fresh(c, call.now), call.now);
    }
  }

  lemma ServeHolds(c: Config, all: Buckets, call: Call, from: real)
    requires c.rate >= 0.0 && AllHold(c, all, from) && from <= call.now
    ensures AllHold(c, Serve(c, all, call).0, call.now)
  {
    var b := if call.client in all then all[call.client] else Fresh(c, call.now);
    ConsumeHolds(c, b, call.now, call.now);
  }

  /** Enough rate: over any calls, the sweep changes no answer. */
  lemma {:induction false} EvictionUnseen(c: Config, swept: Buckets, all: Buckets, calls: seq<Call>, from: real)
    requires c.rate * IDLE_EVICT_AFTER >= c.burst as real && c.rate >= 0.0
    requires Alike(c, swept, all, from) && AllHold(c, all, from) && InTime(calls, from)
    ensures Run(c, swept, calls, true) == Run(c, all, calls, false)
    decreases |calls|
  {
    if calls != [] {
      var call := calls[0];
      SweepAlike(c, swept, all, from, call.now);
      ServeAlike(c, Kept(swept, call.now, true), all, call);
      ServeHolds(c, all, call, from);
      EvictionUnseen(c, Admit(c, swept, call, true).0, Admit(c, all, call, false).0, calls[1..], call.now);
    }
  }

  // Too little rate: calls that tell the two apart.

  /** `n` calls of one client at one time. */
  function Burst(client: Client, n: nat, now: real): (calls: seq<Call>)
    ensures |calls| == n && forall i | 0 <= i < n :: calls[i] == Call(client, now)
  {
    if n == 0 then [] else [Call(client, now)] + Burst(client, n - 1, now)
  }

  /** One call each of `n` other clients. */
  function Crowd(n: nat): seq<Call> {
    if n == 0 then [] else Crowd(n - 1) + [Call(n, 0.0)]
  }

  function After(c: Config, buckets: Buckets, calls: seq<Call>, evicting: bool): Buckets
    decreases |calls|
  {
    if calls == [] then buckets else After(c, Admit(c, buckets, calls[0], evicting).0, calls[1..], evicting)
  }

  lemma {:induction false} RunAdds(c: Config, buckets: Buckets, a: seq<Call>, b: seq<Call>, evicting: bool)
    ensures Run(c, buckets, a + b, evicting) == Run(c, buckets, a, evicting) + Run(c, After(c, buckets, a, evicting), b, evicting)
    ensures After(c, buckets, a + b, evicting) == After(c, After(c, buckets, a, evicting), b, evicting)
    ensures |Run(c, buckets, a, evicting)| == |a|
    decreases |a|
  {
    if a == [] {
      assert a + b == b;
    } else {
      assert (a + b)[1..] == a[1..] + b;
      RunAdds(c, Admit(c, buckets, a[0], evicting).0, a[1..], b, evicting);
    }
  }

  ghost predicate AllAtZero(buckets: Buckets) {
    forall id | id in buckets :: buckets[id].last == 0.0
  }

  /** At one time nothing is old enough to be forgotten. */
  lemma {:induction false} SameAtZero(c: Config, buckets: Buckets, calls: seq<Call>)
    requires AllAtZero(buckets) && forall i | 0 <= i < |calls| :: calls[i].now == 0.0
    ensures Run(c, buckets, calls, true) == Run(c, buckets, calls, false)
    ensures After(c, buckets, calls, true) == After(c, buckets, calls, false)
    ensures AllAtZero(After(c, buckets, calls, false))
    decreases |calls|
  {
    if calls != [] {
      assert Sweep(buckets, 0.0) == buckets;
      SameAtZero(c, Admit(c, buckets, calls[0], false).0, calls[1..]);
    }
  }

  /** What a client has when it calls now. */
  function Has(c: Config, buckets: Buckets, client: Client, now: real): real {
    Refill(c, if client in buckets then buckets[client] else Fresh(c, now), now).tokens
  }

  predicate AllAdmitted(rs: seq<Outcome>) {
    forall r | r in rs :: r == Admitted
  }

  lemma AllAdmittedFirst(r: Outcome, rs: seq<Outcome>)
    ensures AllAdmitted([r] + rs) <==> r == Admitted && AllAdmitted(rs)
  {
    assert r in [r] + rs && forall x | x in rs :: x in [r] + rs;
  }

  lemma FirstOfBurst(c: Config, buckets: Buckets, client: Client, now: real, evicting: bool)
    requires evicting ==> |buckets| <= 1
    ensures
      var (next, r) := Admit(c, buckets, Call(client, now), evicting);
      var t := Has(c, buckets, client, now);
      && (r.Admitted? <==> t >= 1.0)
      && (r.Admitted? ==> next == buckets[client := Bucket(t - 1.0, now)] && Has(c, next, client, now) == t - 1.0)
  {}

  lemma StillAlone(buckets: Buckets, client: Client, b: Bucket)
    ensures buckets.Keys <= {client} ==> |buckets[client := b]| == 1 && buckets[client := b].Keys == {client}
  {
    if buckets.Keys <= {client} {
      assert buckets[client := b].Keys == {client};
    }
  }

  /** A burst within what the client has: all of it proceeds, and is spent. */
  lemma {:induction false} BurstSpends(c: Config, buckets: Buckets, client: Client, n: nat, now: real, evicting: bool)
    requires Has(c, buckets, client, now) >= n as real
    requires evicting ==> |buckets| <= 1 && buckets.Keys <= {client}
    ensures AllAdmitted(Run(c, buckets, Burst(client, n, now), evicting))
    ensures After(c, buckets, Burst(client, n, now), evicting) ==
            if n == 0 then buckets else buckets[client := Bucket(Has(c, buckets, client, now) - n as real, now)]
    decreases n
  {
    if n > 0 {
      var burst, call := Burst(client, n, now), Call(client, now);
      assert burst[0] == call && burst[1..] == Burst(client, n - 1, now);
      FirstOfBurst(c, buckets, client, now, evicting);
      var (next, r) := Admit(c, buckets, call, evicting);
      StillAlone(buckets, client, Bucket(Has(c, buckets, client, now) - 1.0, now));
      BurstSpends(c, next, client, n - 1, now, evicting);
      AllAdmittedFirst(r, Run(c, next, Burst(client, n - 1, now), evicting));
    }
  }

  /** If all of a burst proceeds, the client had that much. */
  lemma {:induction false} BurstNeeds(c: Config, buckets: Buckets, client: Client, n: nat, now: real)
    requires n > 0 && client in buckets && AllAdmitted(Run(c, buckets, Burst(client, n, now), false))
    ensures Has(c, buckets, client, now) >= n as real
    decreases n
  {
    var burst := Burst(client, n, now);
    assert burst[0] == Call(client, now) && burst[1..] == Burst(client, n - 1, now);
    var (next, r) := Admit(c, buckets, burst[0], false);
    var run := Run(c, buckets, burst, false);
    var rest := Run(c, next, Burst(client, n - 1, now), false);
    assert run == [r] + rest;
    AllAdmittedFirst(r, rest);
    var t := Has(c, buckets, client, now);
    assert t >= 1.0 && next == buckets[client := Bucket(t - 1.0, now)];
    assert Has(c, next, client, now) == t - 1.0;
    if n > 1 {
      BurstNeeds(c, next, client, n - 1, now);
    }
  }

  lemma AddKey(m: Buckets, id: Client, b: Bucket)
    requires id !in m
    ensures |m[id := b]| == |m| + 1
  {
    assert m[id := b].Keys == m.Keys + {id};
    assert |m.Keys + {id}| == |m.Keys| + 1;
  }

  lemma AfterOne(c: Config, buckets: Buckets, call: Call, evicting: bool)
    ensures After(c, buckets, [call], evicting) == Admit(c, buckets, call, evicting).0
  {
    assert [call][1..] == [];
  }

  /** What `n` other clients leave: their own buckets more. */
  ghost predicate Crowded(before: Buckets, after: Buckets, n: nat) {
    && |after| == |before| + n
    && (forall id | id in after && id !in before :: 1 <= id <= n)
    && (forall id | id in before :: id in after && after[id] == before[id])
  }

  lemma OneMoreInCrowd(before: Buckets, mid: Buckets, n: nat, b: Bucket)
    requires Crowded(before, mid, n) && forall id | id in before :: id == 0
    ensures Crowded(before, mid[n + 1 := b], n + 1)
  {
    NotInCrowd(before, mid, n);
    AddKey(mid, n + 1, b);
  }

  lemma NewClient(c: Config, buckets: Buckets, call: Call)
    requires call.client !in buckets
    ensures Admit(c, buckets, call, false).0 == buckets[call.client := TryConsume(c, Fresh(c, call.now), call.now).0]
  {}

  lemma NotInCrowd(before: Buckets, mid: Buckets, n: nat)
    requires Crowded(before, mid, n) && forall id | id in before :: id == 0
    ensures n + 1 !in mid
  {
  }

  /** A bucket each for `n` others. */
  function WithCrowd(buckets: Buckets, b: Bucket, n: nat): Buckets {
    if n == 0 then buckets else WithCrowd(buckets, b, n - 1)[n := b]
  }

  lemma {:induction false} CrowdGrows(buckets: Buckets, b: Bucket, n: nat)
    requires forall id | id in buckets :: id == 0
    ensures Crowded(buckets, WithCrowd(buckets, b, n), n)
    decreases n
  {
    if n > 0 {
      CrowdGrows(buckets, b, n - 1);
      OneMoreInCrowd(buckets, WithCrowd(buckets, b, n - 1), n - 1, b);
    }
  }

  lemma CrowdStep(c: Config, buckets: Buckets, n: nat)
    requires n + 1 !in After(c, buckets, Crowd(n), false)
    ensures After(c, buckets, Crowd(n + 1), false) ==
            After(c, buckets, Crowd(n), false)[n + 1 := TryConsume(c, Fresh(c, 0.0), 0.0).0]
  {
    var before, call := After(c, buckets, Crowd(n), false), Call(n + 1, 0.0);
    RunAdds(c, buckets, Crowd(n), [call], false);
    AfterOne(c, before, call, false);
    NewClient(c, before, call);
  }

  lemma {:induction false} NextIsNew(buckets: Buckets, b: Bucket, n: nat)
    requires forall id | id in buckets :: id == 0
    ensures n + 1 !in WithCrowd(buckets, b, n)
  {
    CrowdGrows(buckets, b, n);
    NotInCrowd(buckets, WithCrowd(buckets, b, n), n);
  }

  lemma {:induction false} CrowdLeaves(c: Config, buckets: Buckets, b: Bucket, n: nat)
    requires b == TryConsume(c, Fresh(c, 0.0), 0.0).0 && forall id | id in buckets :: id == 0
    ensures After(c, buckets, Crowd(n), false) == WithCrowd(buckets, b, n)
    decreases n
  {
    if n > 0 {
      var m := n - 1;
      CrowdLeaves(c, buckets, b, m);
      NextIsNew(buckets, b, m);
      CrowdStep(c, buckets, m);
    }
  }

  lemma CrowdAtZero(n: nat)
    ensures forall i | 0 <= i < |Crowd(n)| :: Crowd(n)[i].now == 0.0
  {}

  lemma {:induction false} CrowdIsOthers(n: nat)
    ensures forall i | 0 <= i < |Crowd(n)| :: Crowd(n)[i].client > 0
    decreases n
  {
    if n > 0 {
      CrowdIsOthers(n - 1);
    }
  }

  /** A client that spent all it had, a crowd of others, and the client again an hour later. */
  function Telling(c: Config): seq<Call> {
    Burst(0, c.burst, 0.0) + Crowd(SWEEP_ABOVE) + Burst(0, c.burst, IDLE_EVICT_AFTER)
  }

  ghost function Spent(c: Config): Buckets {
    After(c, map[], Burst(0, c.burst, 0.0) + Crowd(SWEEP_ABOVE), false)
  }

  lemma SpentIs(c: Config)
    requires c.burst > 0
    ensures 0 in Spent(c) && Spent(c)[0] == Bucket(0.0, 0.0)
    ensures |Spent(c)| > SWEEP_ABOVE
  {
    var one := After(c, map[], Burst(0, c.burst, 0.0), false);
    BurstSpends(c, map[], 0, c.burst, 0.0, false);
    var b := TryConsume(c, Fresh(c, 0.0), 0.0).0;
    CrowdLeaves(c, one, b, SWEEP_ABOVE);
    CrowdGrows(one, b, SWEEP_ABOVE);
    RunAdds(c, map[], Burst(0, c.burst, 0.0), Crowd(SWEEP_ABOVE), false);
  }

  lemma SpentAtZero(c: Config)
    ensures
      var first := Burst(0, c.burst, 0.0) + Crowd(SWEEP_ABOVE);
      && After(c, map[], first, true) == Spent(c) && AllAtZero(Spent(c))
      && (forall i | 0 <= i < |first| :: first[i].now == 0.0)
  {
    CrowdAtZero(SWEEP_ABOVE);
    SameAtZero(c, map[], Burst(0, c.burst, 0.0) + Crowd(SWEEP_ABOVE));
  }

  /** The evicting limiter has forgotten that the client spent anything. */
  lemma ForgottenBurst(c: Config)
    requires c.burst > 0
    ensures AllAdmitted(Run(c, Spent(c), Burst(0, c.burst, IDLE_EVICT_AFTER), true))
  {
    var burst := Burst(0, c.burst, IDLE_EVICT_AFTER);
    SpentIs(c);
    SpentAtZero(c);
    assert Kept(Spent(c), IDLE_EVICT_AFTER, true) == map[];
    assert burst[0].now == IDLE_EVICT_AFTER;
    assert Admit(c, Spent(c), burst[0], true) == Admit(c, map[], burst[0], true);
    BurstSpends(c, map[], 0, c.burst, IDLE_EVICT_AFTER, true);
  }

  /** The one that keeps every bucket has not. */
  lemma RememberedBurst(c: Config)
    requires c.burst > 0 && 0.0 <= c.rate && c.rate * IDLE_EVICT_AFTER < c.burst as real
    ensures !AllAdmitted(Run(c, Spent(c), Burst(0, c.burst, IDLE_EVICT_AFTER), false))
  {
    SpentIs(c);
    var run := Run(c, Spent(c), Burst(0, c.burst, IDLE_EVICT_AFTER), false);
    assert Has(c, Spent(c), 0, IDLE_EVICT_AFTER) <= IDLE_EVICT_AFTER * c.rate;
    if AllAdmitted(run) {
      BurstNeeds(c, Spent(c), 0, c.burst, IDLE_EVICT_AFTER);
    }
  }

  lemma {:induction false} JoinInTime(a: seq<Call>, b: seq<Call>, from: real, mid: real)
    requires InTime(a, from) && InTime(b, mid) && from <= mid && forall i | 0 <= i < |a| :: a[i].now <= mid
    ensures InTime(a + b, from)
    decreases |a|
  {
    if a == [] {
      assert a + b == b;
      if b != [] {
        assert b[0].now >= mid;
      }
    } else {
      assert (a + b)[1..] == a[1..] + b;
      assert forall i | 0 <= i < |a[1..]| :: a[1..][i] == a[i + 1];
      JoinInTime(a[1..], b, a[0].now, mid);
    }
  }

  lemma {:induction false} OneTime(calls: seq<Call>, now: real)
    requires forall i | 0 <= i < |calls| :: calls[i].now == now
    ensures InTime(calls, now)
    decreases |calls|
  {
    if calls != [] {
      assert forall i | 0 <= i < |calls[1..]| :: calls[1..][i] == calls[i + 1];
      OneTime(calls[1..], now);
    }
  }

  /** Too little rate: some calls are answered otherwise for the sweep. */
  lemma EvictionSeen(c: Config)
    requires 0.0 <= c.rate && c.rate * IDLE_EVICT_AFTER < c.burst as real
    ensures InTime(Telling(c), 0.0) && Run(c, map[], Telling(c), true) != Run(c, map[], Telling(c), false)
  {
    assert c.burst > 0 by { Scale(c.rate, 0.0, IDLE_EVICT_AFTER); }
    var first, last := Burst(0, c.burst, 0.0) + Crowd(SWEEP_ABOVE), Burst(0, c.burst, IDLE_EVICT_AFTER);
    SpentAtZero(c);
    OneTime(first, 0.0);
    OneTime(last, IDLE_EVICT_AFTER);
    JoinInTime(first, last, 0.0, IDLE_EVICT_AFTER);
    RunAdds(c, map[], first, last, true);
    RunAdds(c, map[], first, last, false);
    ForgottenBurst(c);
    RememberedBurst(c);
    var swept, kept := Run(c, map[], Telling(c), true), Run(c, map[], Telling(c), false);
    assert swept[|first|..] == Run(c, Spent(c), last, true);
    assert kept[|first|..] == Run(c, Spent(c), last, false);
  }

  lemma {:induction false} FewAreKept(buckets: Buckets, clients: set<Client>, now: real)
    requires buckets.Keys <= clients && |clients| <= 4096
    ensures Kept(buckets, now, true) == buckets
  {
    FewerKeys(buckets.Keys, clients);
  }

  lemma {:induction false} FewerKeys(a: set<Client>, b: set<Client>)
    requires a <= b
    ensures |a| <= |b|
    decreases |a|
  {
    if x :| x in a {
      FewerKeys(a - {x}, b - {x});
    }
  }

  /** At any rate: 4096 clients are never swept, whenever they call. One more is enough for `EvictionSeen`. */
  lemma {:induction false} FewClientsUnseen(c: Config, buckets: Buckets, calls: seq<Call>, clients: set<Client>)
    requires |clients| <= 4096 && buckets.Keys <= clients && forall k | k in calls :: k.client in clients
    ensures Run(c, buckets, calls, true) == Run(c, buckets, calls, false)
    decreases |calls|
  {
    if calls != [] {
      FewAreKept(buckets, clients, calls[0].now);
      var after := Admit(c, buckets, calls[0], false).0;
      assert calls[0] in calls && after.Keys == buckets.Keys + {calls[0].client};
      FewClientsUnseen(c, after, calls[1..], clients);
    }
  }

  /** `Telling` takes one client more than that, the first and 4096 others. */
  lemma {:induction false} TellingClients(c: Config)
    ensures forall k | k in Telling(c) :: k.client <= 4096
  {
    CrowdNumbers(SWEEP_ABOVE);
  }

  lemma {:induction false} CrowdNumbers(n: nat)
    ensures forall i | 0 <= i < |Crowd(n)| :: 1 <= Crowd(n)[i].client <= n
    decreases n
  {
    if n > 0 {
      CrowdNumbers(n - 1);
    }
  }

  ghost predicate EvictionIsUnseen(c: Config) {
    forall calls | InTime(calls, 0.0) :: Run(c, map[], calls, true) == Run(c, map[], calls, false)
  }

  /** Forgetting a bucket idle for an hour changes no answer exactly if an hour fills a bucket. */
  lemma EvictionIsUnseenIff(c: Config)
    requires c.rate >= 0.0
    ensures EvictionIsUnseen(c) <==> c.rate * IDLE_EVICT_AFTER >= c.burst as real
  {
    if c.rate * IDLE_EVICT_AFTER >= c.burst as real {
      forall calls | InTime(calls, 0.0)
        ensures Run(c, map[], calls, true) == Run(c, map[], calls, false)
      {
        EvictionUnseen(c, map[], map[], calls, 0.0);
      }
    } else {
      EvictionSeen(c);
    }
  }

  // ----- How fast a client can go -----

  /** The answers of one bucket to calls at these times. */
  function Drain(c: Config, b: Bucket, times: seq<real>): (r: seq<bool>)
    ensures |r| == |times|
    decreases |times|
  {
    if times == [] then []
    else
      var (after, ok) := TryConsume(c, b, times[0]);
      [ok] + Drain(c, after, times[1..])
  }

  predicate Rising(times: seq<real>, from: real)
    decreases |times|
  {
    times != [] ==> from <= times[0] && Rising(times[1..], times[0])
  }

  function Count(rs: seq<bool>): nat
    decreases |rs|
  {
    if rs == [] then 0 else (if rs[0] then 1 else 0) + Count(rs[1..])
  }

  lemma CountFirst(ok: bool, rs: seq<bool>)
    ensures Count([ok] + rs) == (if ok then 1 else 0) + Count(rs)
  {
    assert ([ok] + rs)[1..] == rs;
  }

  // The same bucket, with the credit read off a clock: `clock(t)` is what has been credited by `t`.

  function TakeBy(cap: real, clock: real -> real, tokens: real, last: real, now: real): (real, bool) {
    var r := Min(tokens + (clock(now) - clock(last)), cap);
    if r >= 1.0 then (r - 1.0, true) else (r, false)
  }

  function DrainBy(cap: real, clock: real -> real, tokens: real, last: real, times: seq<real>): (r: seq<bool>)
    ensures |r| == |times|
    decreases |times|
  {
    if times == [] then []
    else
      var (after, ok) := TakeBy(cap, clock, tokens, last, times[0]);
      [ok] + DrainBy(cap, clock, after, times[0], times[1..])
  }

  /** What a clock shows grows at the rate. */
  ghost predicate IsClock(c: Config, clock: real -> real) {
    forall from, to :: clock(to) - clock(from) == (to - from) * c.rate
  }

  lemma {:induction false} ClockFor(c: Config) returns (clock: real -> real)
    ensures IsClock(c, clock)
  {
    clock := (t: real) => t * c.rate;
    forall from, to
      ensures clock(to) - clock(from) == (to - from) * c.rate
    {
      AddScale(c.rate, to - from, from);
      assert (to - from) + from == to;
    }
  }

  lemma {:induction false} ConsumeIsBy(c: Config, clock: real -> real, b: Bucket, now: real)
    requires IsClock(c, clock) && b.last <= now
    ensures
      var (after, ok) := TryConsume(c, b, now);
      (after.tokens, ok) == TakeBy(c.burst as real, clock, b.tokens, b.last, now) && after.last == now
  {
    var credit := clock(now) - clock(b.last);
    assert Elapsed(b, now) == now - b.last;
    assert credit == Elapsed(b, now) * c.rate;
    assert Refill(c, b, now).tokens == Min(b.tokens + credit, c.burst as real);
  }

  lemma {:induction false} DrainIsBy(c: Config, clock: real -> real, b: Bucket, times: seq<real>)
    requires IsClock(c, clock) && Rising(times, b.last)
    ensures Drain(c, b, times) == DrainBy(c.burst as real, clock, b.tokens, b.last, times)
    decreases |times|
  {
    if times != [] {
      ConsumeIsBy(c, clock, b, times[0]);
      DrainIsBy(c, clock, TryConsume(c, b, times[0]).0, times[1..]);
    }
  }

  ghost predicate Monotone(clock: real -> real) {
    forall s, t | s <= t :: clock(s) <= clock(t)
  }

  lemma {:induction false} ClockIsMonotone(c: Config, clock: real -> real)
    requires c.rate >= 0.0 && IsClock(c, clock)
    ensures Monotone(clock)
  {
    forall s, t | s <= t
      ensures clock(s) <= clock(t)
    {
      assert clock(t) - clock(s) == (t - s) * c.rate;
      Scale(c.rate, 0.0, t - s);
    }
  }

  /** What a bucket gives out is what it held and what it was credited. */
  lemma {:induction false} DrainIsPaidFor(cap: real, clock: real -> real, tokens: real, last: real, times: seq<real>, to: real)
    requires Monotone(clock) && 0.0 <= tokens && 0.0 <= cap && Rising(times, last)
    requires last <= to && forall i | 0 <= i < |times| :: times[i] <= to
    ensures Count(DrainBy(cap, clock, tokens, last, times)) as real <= tokens + (clock(to) - clock(last))
    decreases |times|
  {
    assert clock(last) <= clock(to);
    if times != [] {
      var now, rest := times[0], times[1..];
      var (after, ok) := TakeBy(cap, clock, tokens, last, now);
      assert clock(last) <= clock(now);
      assert forall i | 0 <= i < |rest| :: rest[i] == times[i + 1];
      DrainIsPaidFor(cap, clock, after, now, rest, to);
      CountFirst(ok, DrainBy(cap, clock, after, now, rest));
    }
  }

  /** From the first call of a stretch on, a client finds no more than a full bucket. */
  lemma FromFirstCall(cap: real, clock: real -> real, tokens: real, last: real, times: seq<real>)
    requires Monotone(clock) && 0.0 <= tokens && 0.0 <= cap && Rising(times, last) && times != []
    ensures Count(DrainBy(cap, clock, tokens, last, times)) as real <= cap + (clock(times[|times| - 1]) - clock(times[0]))
  {
    var now, to := times[0], times[|times| - 1];
    LastIsLatest(times, last);
    assert clock(last) <= clock(now);
    var full := Min(tokens + (clock(now) - clock(last)), cap);
    assert TakeBy(cap, clock, full, now, now) == TakeBy(cap, clock, tokens, last, now);
    assert DrainBy(cap, clock, full, now, times) == DrainBy(cap, clock, tokens, last, times);
    DrainIsPaidFor(cap, clock, full, now, times, to);
  }

  lemma {:induction false} StretchIsPaidFor(cap: real, clock: real -> real, tokens: real, last: real,
                                            earlier: seq<real>, times: seq<real>)
    requires Monotone(clock) && 0.0 <= tokens && 0.0 <= cap && Rising(earlier + times, last) && times != []
    ensures Count(DrainBy(cap, clock, tokens, last, earlier + times)[|earlier|..]) as real <=
            cap + (clock(times[|times| - 1]) - clock(times[0]))
    decreases |earlier|
  {
    var all := DrainBy(cap, clock, tokens, last, earlier + times);
    if earlier == [] {
      assert earlier + times == times;
      assert all[0..] == all;
      FromFirstCall(cap, clock, tokens, last, times);
    } else {
      var now, others := earlier[0], earlier[1..];
      var (after, ok) := TakeBy(cap, clock, tokens, last, now);
      assert (earlier + times)[1..] == others + times && (earlier + times)[0] == now;
      assert clock(last) <= clock(now);
      StretchIsPaidFor(cap, clock, after, now, others, times);
      var rest := DrainBy(cap, clock, after, now, others + times);
      assert all == [ok] + rest;
      assert all[|earlier|..] == rest[|others|..];
    }
  }

  /** Over any stretch of its calls, first to last, a client gets no more than its burst and the rate
      times the length of the stretch. `earlier` is whatever it did before. */
  lemma {:induction false} RateHolds(c: Config, b: Bucket, earlier: seq<real>, times: seq<real>)
    requires c.rate >= 0.0 && 0.0 <= b.tokens && Rising(earlier + times, b.last) && times != []
    ensures Count(Drain(c, b, earlier + times)[|earlier|..]) as real <=
            c.burst as real + (times[|times| - 1] - times[0]) * c.rate
  {
    var clock := ClockFor(c);
    DrainIsBy(c, clock, b, earlier + times);
    ClockIsMonotone(c, clock);
    StretchIsPaidFor(c.burst as real, clock, b.tokens, b.last, earlier, times);
  }

  lemma {:induction false} LastIsLatest(times: seq<real>, from: real)
    requires Rising(times, from) && times != []
    ensures forall i | 0 <= i < |times| :: from <= times[i] <= times[|times| - 1]
    ensures Rising(times, times[0])
    decreases |times|
  {
    if |times| > 1 {
      LastIsLatest(times[1..], times[0]);
      assert forall i | 1 <= i < |times| :: times[i] == times[1..][i - 1];
    }
  }

  /** One client's calls, and the answers to them. */
  function TimesOf(calls: seq<Call>, client: Client): seq<real>
    decreases |calls|
  {
    if calls == [] then []
    else (if calls[0].client == client then [calls[0].now] else []) + TimesOf(calls[1..], client)
  }

  function AnswersTo(calls: seq<Call>, rs: seq<Outcome>, client: Client): seq<bool>
    requires |calls| == |rs|
    decreases |calls|
  {
    if calls == [] then []
    else (if calls[0].client == client then [rs[0].Admitted?] else []) + AnswersTo(calls[1..], rs[1..], client)
  }

  /** A client is served by its own bucket, whatever the others do. */
  lemma {:induction false} OwnBucket(c: Config, buckets: Buckets, calls: seq<Call>, client: Client)
    requires client in buckets
    ensures AnswersTo(calls, Run(c, buckets, calls, false), client) == Drain(c, buckets[client], TimesOf(calls, client))
    decreases |calls|
  {
    if calls != [] {
      var call, rest := calls[0], calls[1..];
      var (after, r) := Admit(c, buckets, call, false);
      OwnBucket(c, after, rest, client);
      var rs := Run(c, buckets, calls, false);
      assert rs == [r] + Run(c, after, rest, false) && rs[1..] == Run(c, after, rest, false);
      var times, answers := TimesOf(rest, client), AnswersTo(rest, rs[1..], client);
      if call.client == client {
        var (next, ok) := TryConsume(c, buckets[client], call.now);
        assert after[client] == next && r.Admitted? == ok;
        assert TimesOf(calls, client) == [call.now] + times && ([call.now] + times)[1..] == times;
        assert AnswersTo(calls, rs, client) == [ok] + answers;
      } else {
        assert after[client] == buckets[client];
        assert TimesOf(calls, client) == [] + times == times;
        assert AnswersTo(calls, rs, client) == [] + answers == answers;
      }
    }
  }

  /** A client the limiter has not seen is served by a bucket that is full at its first call. */
  lemma {:induction false} FromFull(c: Config, buckets: Buckets, calls: seq<Call>, client: Client)
    requires client !in buckets && TimesOf(calls, client) != []
    ensures AnswersTo(calls, Run(c, buckets, calls, false), client) ==
            Drain(c, Fresh(c, TimesOf(calls, client)[0]), TimesOf(calls, client))
    decreases |calls|
  {
    var call, rest := calls[0], calls[1..];
    var (after, r) := Admit(c, buckets, call, false);
    var rs := Run(c, buckets, calls, false);
    assert rs == [r] + Run(c, after, rest, false) && rs[1..] == Run(c, after, rest, false);
    var times, answers := TimesOf(rest, client), AnswersTo(rest, rs[1..], client);
    if call.client == client {
      var (next, ok) := TryConsume(c, Fresh(c, call.now), call.now);
      assert after[client] == next && r.Admitted? == ok;
      assert TimesOf(calls, client) == [call.now] + times && ([call.now] + times)[1..] == times;
      assert AnswersTo(calls, rs, client) == [ok] + answers;
      OwnBucket(c, after, rest, client);
    } else {
      assert TimesOf(calls, client) == [] + times == times;
      assert AnswersTo(calls, rs, client) == [] + answers == answers;
      FromFull(c, after, rest, client);
    }
  }

  lemma {:induction false} TimesRise(calls: seq<Call>, client: Client, from: real)
    requires InTime(calls, from)
    ensures Rising(TimesOf(calls, client), from)
    decreases |calls|
  {
    if calls != [] {
      var times := TimesOf(calls[1..], client);
      TimesRise(calls[1..], client, calls[0].now);
      if calls[0].client == client {
        assert ([calls[0].now] + times)[1..] == times;
      } else {
        assert TimesOf(calls, client) == [] + times == times;
      }
    }
  }

  /** The limiter as it is, sweep and all, where the sweep goes unseen: over any calls of any clients,
      no stretch of one client's calls is admitted faster than its burst and the rate allow. */
  lemma {:induction false} LimiterHoldsRate(c: Config, calls: seq<Call>, client: Client, earlier: seq<real>, times: seq<real>)
    requires c.rate >= 0.0 && c.rate * IDLE_EVICT_AFTER >= c.burst as real && InTime(calls, 0.0)
    requires TimesOf(calls, client) == earlier + times && times != []
    ensures |AnswersTo(calls, Run(c, map[], calls, true), client)| == |earlier + times|
    ensures Count(AnswersTo(calls, Run(c, map[], calls, true), client)[|earlier|..]) as real <=
            c.burst as real + (times[|times| - 1] - times[0]) * c.rate
  {
    var all := earlier + times;
    EvictionUnseen(c, map[], map[], calls, 0.0);
    FromFull(c, map[], calls, client);
    TimesRise(calls, client, 0.0);
    LastIsLatest(all, 0.0);
    RateHolds(c, Fresh(c, all[0]), earlier, times);
  }

  // ----- The wait a refused client is told -----

  /** A refused bucket fills at its rate, whatever is asked of it in the meantime. */
  lemma RefusedFills(c: Config, b: Bucket, now: real, later: real)
    requires c.rate > 0.0 && c.burst >= 1 && b.tokens < 1.0 && b.last <= now <= later
    ensures
      var (after, ok) := TryConsume(c, b, now);
      && ok == (b.tokens + (now - b.last) * c.rate >= 1.0)
      && (!ok ==> after.tokens + (later - now) * c.rate == b.tokens + (later - b.last) * c.rate && after.tokens < 1.0)
  {
    AddScale(c.rate, now - b.last, later - now);
  }

  lemma WaitIs(c: Config, b: Bucket, later: real)
    requires c.rate > 0.0 && b.tokens < 1.0 && WaitFor(c, b).Some?
    ensures b.tokens + (later - b.last) * c.rate >= 1.0 <==> later >= b.last + WaitFor(c, b).value
  {
    var w := (1.0 - b.tokens) / c.rate;
    assert w * c.rate == 1.0 - b.tokens;
    if later - b.last >= w {
      Scale(c.rate, w, later - b.last);
    } else {
      ScaleStrictly(c.rate, later - b.last, w);
    }
  }

  lemma ScaleStrictly(rate: real, a: real, b: real)
    requires rate > 0.0 && a < b
    ensures a * rate < b * rate
  {}

  /** A refused client is told its wait `w`. Whatever it asks before that, however often, is refused,
      and its first request from then on proceeds. */
  lemma {:induction false} WaitIsExact(c: Config, b: Bucket, polls: seq<real>, next: real)
    requires c.rate > 0.0 && c.burst >= 1 && b.tokens < 1.0 && WaitFor(c, b).Some?
    requires Rising(polls + [next], b.last)
    requires forall i | 0 <= i < |polls| :: polls[i] < b.last + WaitFor(c, b).value
    ensures forall i | 0 <= i < |polls| :: !Drain(c, b, polls + [next])[i]
    ensures Drain(c, b, polls + [next])[|polls|] == (next >= b.last + WaitFor(c, b).value)
    decreases |polls|
  {
    if polls == [] {
      assert polls + [next] == [next];
      WaitIs(c, b, next);
      RefusedFills(c, b, next, next);
    } else {
      var now := polls[0];
      var (after, ok) := TryConsume(c, b, now);
      assert (polls + [next])[1..] == polls[1..] + [next] && (polls + [next])[0] == now;
      WaitIs(c, b, now);
      LastIsLatest(polls + [next], b.last);
      RefusedFills(c, b, now, next);
      SameDeadline(c, b, now);
      assert forall i | 0 <= i < |polls[1..]| :: polls[1..][i] == polls[i + 1];
      WaitIsExact(c, after, polls[1..], next);
      assert Drain(c, b, polls + [next]) == [ok] + Drain(c, after, polls[1..] + [next]);
    }
  }

  /** A poll that is refused is told the same moment. */
  lemma SameDeadline(c: Config, b: Bucket, now: real)
    requires c.rate > 0.0 && c.burst >= 1 && b.tokens < 1.0 && b.last <= now && !TryConsume(c, b, now).1
    ensures
      var after := TryConsume(c, b, now).0;
      WaitFor(c, after).Some? && WaitFor(c, b).Some? && after.last + WaitFor(c, after).value == b.last + WaitFor(c, b).value
  {
    var after := TryConsume(c, b, now).0;
    RefusedFills(c, b, now, now);
    var w, v := (1.0 - b.tokens) / c.rate, (1.0 - after.tokens) / c.rate;
    assert 1.0 - after.tokens == (1.0 - b.tokens) - (now - b.last) * c.rate;
    assert v == w - (now - b.last);
  }

  /** With no burst at all nothing ever proceeds, though a refilling bucket still names a wait. */
  lemma {:induction false} NoBurstNoCall(c: Config, b: Bucket, times: seq<real>)
    requires c.burst == 0
    ensures forall i | 0 <= i < |times| :: !Drain(c, b, times)[i]
    ensures c.rate > 0.0 ==> WaitFor(c, b).Some?
    decreases |times|
  {
    if times != [] {
      NoBurstNoCall(c, TryConsume(c, b, times[0]).0, times[1..]);
    }
  }

  /** A bucket that never refills and has no token left names no wait, and there is none. */
  lemma {:induction false} NoRefillNoCall(c: Config, b: Bucket, times: seq<real>)
    requires c.rate <= 0.0 && b.tokens < 1.0
    ensures WaitFor(c, b) == None
    ensures forall i | 0 <= i < |times| :: !Drain(c, b, times)[i]
    decreases |times|
  {
    if times != [] {
      Scale(-c.rate, 0.0, Elapsed(b, times[0]));
      NoRefillNoCall(c, TryConsume(c, b, times[0]).0, times[1..]);
    }
  }
}

/**
 The energy drawn while requests overlap, and each request's share of it. The meter is read whenever a
 request starts or ends, and what was drawn since the last reading is split among the requests active
 over that stretch by the work each did. However requests come and go, nothing is lost and nothing is
 counted twice.
 */
module EnergyLedger {
  import opened Text
  import opened EnergyMeter

  // ----- Sums over requests -----

  /** The sum of `f` over the ids below `n`. */
  ghost function Sum(n: nat, f: nat -> real): real {
    if n == 0 then 0.0 else Sum(n - 1, f) + f(n - 1)
  }

  lemma {:induction false} SumSame(n: nat, f: nat -> real, g: nat -> real)
    requires forall i: nat | i < n :: f(i) == g(i)
    ensures Sum(n, f) == Sum(n, g)
  {
    if n > 0 {
      SumSame(n - 1, f, g);
    }
  }

  lemma {:induction false} SumAdds(n: nat, f: nat -> real, g: nat -> real, h: nat -> real)
    requires forall i: nat | i < n :: h(i) == f(i) + g(i)
    ensures Sum(n, h) == Sum(n, f) + Sum(n, g)
  {
    if n > 0 {
      SumAdds(n - 1, f, g, h);
    }
  }

  lemma Distribute(c: real, a: real, b: real)
    ensures c * (a + b) == c * a + c * b
  {}

  lemma {:induction false} SumScales(n: nat, f: nat -> real, c: real, h: nat -> real)
    requires forall i: nat | i < n :: h(i) == c * f(i)
    ensures Sum(n, h) == c * Sum(n, f)
  {
    if n > 0 {
      SumScales(n - 1, f, c, h);
      Distribute(c, Sum(n - 1, f), f(n - 1));
    }
  }

  // ----- Requests -----

  datatype Share = Share(gpu: Option<real>, cpu: Option<real>, cpuEstimated: bool, shared: bool)

  const NO_SHARE := Share(None, None, false, false)

  function Add(a: Option<real>, b: Option<real>): Option<real> {
    if a.None? && b.None? then None else Some(Joules(a) + Joules(b))
  }

  function Joules(a: Option<real>): real { if a.Some? then a.value else 0.0 }

  function Times(a: Option<real>, part: real): Option<real> {
    if a.Some? then Some(a.value * part) else None
  }

  /** A metered request: what it has drawn so far, whether its work is counted, and its work as last
      sampled. */
  datatype Entry = Entry(share: Share, probed: bool, workSampled: nat)

  type Active = map<nat, Entry>

  /** The work done over the sample; `work` is what the probes read now. */
  function Done(e: Entry, id: nat, work: nat -> nat): nat {
    if e.probed then Saturating(work(id), e.workSampled) else 0
  }

  ghost function TotalDone(active: Active, work: nat -> nat, n: nat): nat {
    if n == 0 then 0
    else TotalDone(active, work, n - 1) + if n - 1 in active then Done(active[n - 1], n - 1, work) else 0
  }

  /** The part of a sample that goes to a request that did `d` of `total` among `n`. */
  function Part(d: nat, total: nat, n: nat): real
    requires n > 0
  {
    if total > 0 then d as real / total as real else 1.0 / n as real
  }

  /** What a window says was drawn, by domain; the CPU's part is read, or estimated from the configured
      power. */
  datatype Drawn = Drawn(gpu: Option<real>, cpu: Option<real>, estimated: bool)

  function DrawnIn(w: Window, tdp: real): Drawn {
    Drawn(if w.gpuCounted then Some(w.gpu) else None,
          if w.raplRead then Some(w.pkg + w.dram) else if tdp > 0.0 then Some(tdp * w.duration) else None,
          !w.raplRead)
  }

  function Charged(e: Entry, w: Drawn, d: nat, part: real, n: nat): Entry {
    var s := e.share;
    e.(workSampled := e.workSampled + d,
       share := Share(Add(s.gpu, Times(w.gpu, part)), Add(s.cpu, Times(w.cpu, part)),
                      s.cpuEstimated || w.estimated, s.shared || n > 1))
  }

  /** The parts of a sample, by request. */
  ghost function Parts(active: Active, work: nat -> nat, total: nat): nat -> real {
    (i: nat) => if i in active && |active| > 0 then Part(Done(active[i], i, work), total, |active|) else 0.0
  }

  /** What was drawn split among the requests active over it. */
  ghost function Split(active: Active, w: Drawn, work: nat -> nat, parts: nat -> real): Active {
    map id | id in active :: Charged(active[id], w, Done(active[id], id, work), parts(id), |active|)
  }

  ghost function Sampled(active: Active, w: Drawn, work: nat -> nat, n: nat): Active {
    Split(active, w, work, Parts(active, work, TotalDone(active, work, n)))
  }

  lemma SampledKeys(active: Active, w: Drawn, work: nat -> nat, n: nat)
    ensures Sampled(active, w, work, n).Keys == active.Keys
  {}

  /** Each is charged its part. */
  lemma SampledAt(active: Active, w: Drawn, work: nat -> nat, n: nat, id: nat)
    requires id in active
    ensures
      var d := Done(active[id], id, work);
      |active| > 0 && Sampled(active, w, work, n)[id] ==
                      Charged(active[id], w, d, Part(d, TotalDone(active, work, n), |active|), |active|)
  {
    assert |active| > 0;
  }

  /** All but those left are charged. */
  ghost predicate SplitSoFar(was: Active, now: Active, left: set<nat>, whole: Active) {
    && left <= was.Keys == now.Keys == whole.Keys
    && (forall id | id in left :: now[id] == was[id])
    && (forall id | id in was && id !in left :: now[id] == whole[id])
  }

  lemma SplitOne(was: Active, now: Active, left: set<nat>, whole: Active, id: nat, e: Entry)
    requires SplitSoFar(was, now, left, whole) && id in left && e == whole[id]
    ensures SplitSoFar(was, now[id := e], left - {id}, whole) && |left - {id}| < |left|
  {}

  lemma SplitDone(was: Active, now: Active, whole: Active)
    requires SplitSoFar(was, now, {}, whole)
    ensures now == whole
  {}

  ghost predicate Below(active: Active, n: nat) {
    forall id | id in active :: id < n
  }

  class Ledger {
    var active: Active

    constructor ()
      ensures active == map[]
    {
      active := map[];
    }

    /** Split a window among the active requests; `n` is above all their ids. */
    method Sample(w: Window, tdp: real, work: nat -> nat, ghost n: nat)
      requires Below(active, n)
      modifies this
      ensures active == Sampled(old(active), DrawnIn(w, tdp), work, n)
    {
      if active == map[] {
        return;
      }
      var drawn, count := DrawnIn(w, tdp), |active|;
      var total := CountWork(work, n);
      ghost var was, whole := active, Sampled(active, drawn, work, n);
      SampledKeys(active, drawn, work, n);
      var left := active.Keys;
      while left != {}
        invariant count == |was| > 0 && SplitSoFar(was, active, left, whole)
        decreases |left|
      {
        var id :| id in left;
        SplitOne(was, active, left, whole, id, whole[id]);
        ChargeOne(id, drawn, total, count, work, was, n);
        left := left - {id};
      }
      SplitDone(was, active, whole);
    }

    /** One request is charged its part. */
    method ChargeOne(id: nat, drawn: Drawn, total: nat, count: nat, work: nat -> nat, ghost was: Active, ghost n: nat)
      requires id in active && id in was && active[id] == was[id]
      requires count == |was| > 0 && total == TotalDone(was, work, n)
      modifies this
      ensures id in Sampled(was, drawn, work, n) && active == old(active)[id := Sampled(was, drawn, work, n)[id]]
    {
      var e := active[id];
      var d := Done(e, id, work);
      SampledAt(was, drawn, work, n, id);
      active := active[id := Charged(e, drawn, d, Part(d, total, count), count)];
    }

    /** The work done by all of them since the last sample. */
    method CountWork(work: nat -> nat, ghost n: nat) returns (total: nat)
      requires Below(active, n)
      ensures total == TotalDone(active, work, n)
    {
      total := 0;
      var left := active.Keys;
      ghost var seen: set<nat> := {};
      assert active - active.Keys == map[];
      NoneDone(work, n);
      while left != {}
        invariant left <= active.Keys
        invariant total == TotalDone(active - left, work, n)
        decreases |left|
      {
        var id :| id in left;
        var rest := left - {id};
        OneMoreDone(active - left, active - rest, id, work, n);
        total := total + Done(active[id], id, work);
        left := rest;
      }
      assert active - {} == active;
    }
  }

  lemma {:induction false} NoneDone(work: nat -> nat, n: nat)
    ensures TotalDone(map[], work, n) == 0
  {
    if n > 0 {
      NoneDone(work, n - 1);
    }
  }

  lemma {:induction false} OneMoreDone(a: Active, b: Active, id: nat, work: nat -> nat, n: nat)
    requires id !in a && id in b && b.Keys == a.Keys + {id} && forall i | i in a :: b[i] == a[i]
    ensures TotalDone(b, work, n) == TotalDone(a, work, n) + if id < n then Done(b[id], id, work) else 0
  {
    if n > 0 {
      OneMoreDone(a, b, id, work, n - 1);
    }
  }

  // ----- A sample is split whole -----

  ghost function OneEach(ids: set<nat>): nat -> real {
    (i: nat) => if i in ids then 1.0 else 0.0
  }

  ghost function DoneBy(active: Active, work: nat -> nat): nat -> real {
    (i: nat) => if i in active then Done(active[i], i, work) as real else 0.0
  }

  lemma {:induction false} CountBelow(ids: set<nat>, n: nat)
    requires forall id | id in ids :: id < n
    ensures Sum(n, OneEach(ids)) == |ids| as real
    decreases n
  {
    if n == 0 {
      assert ids == {};
    } else {
      var rest := ids - {n - 1};
      CountBelow(rest, n - 1);
      SumSame(n - 1, OneEach(rest), OneEach(ids));
    }
  }

  lemma {:induction false} SumOfDone(active: Active, work: nat -> nat, n: nat)
    ensures Sum(n, DoneBy(active, work)) == TotalDone(active, work, n) as real
  {
    if n > 0 {
      SumOfDone(active, work, n - 1);
    }
  }

  lemma InverseTimes(total: real)
    requires total > 0.0
    ensures (1.0 / total) * total == 1.0
  {}

  lemma DivideIsTimes(d: real, total: real)
    requires total > 0.0
    ensures d / total == (1.0 / total) * d
  {}

  lemma PartsOfWork(active: Active, work: nat -> nat, n: nat)
    requires active != map[] && TotalDone(active, work, n) > 0
    ensures Sum(n, Parts(active, work, TotalDone(active, work, n))) == 1.0
  {
    var total := TotalDone(active, work, n);
    var parts, c := Parts(active, work, total), 1.0 / total as real;
    assert |active| > 0;
    SumOfDone(active, work, n);
    forall i: nat | i < n
      ensures parts(i) == c * DoneBy(active, work)(i)
    {
      DivideIsTimes(DoneBy(active, work)(i), total as real);
    }
    SumScales(n, DoneBy(active, work), c, parts);
    InverseTimes(total as real);
  }

  lemma EvenParts(active: Active, work: nat -> nat, n: nat)
    requires Below(active, n) && active != map[]
    ensures Sum(n, Parts(active, work, 0)) == 1.0
  {
    var c := 1.0 / |active| as real;
    assert |active| > 0;
    CountBelow(active.Keys, n);
    SumScales(n, OneEach(active.Keys), c, Parts(active, work, 0));
    InverseTimes(|active| as real);
  }

  /** The parts add up to the whole. */
  lemma PartsAreWhole(active: Active, work: nat -> nat, n: nat)
    requires Below(active, n) && active != map[]
    ensures Sum(n, Parts(active, work, TotalDone(active, work, n))) == 1.0
  {
    if TotalDone(active, work, n) > 0 {
      PartsOfWork(active, work, n);
    } else {
      EvenParts(active, work, n);
    }
  }
}

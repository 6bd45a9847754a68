/**
 Conservation over whole runs of the shared meter.
 */
module EnergyConservation {
  import opened Text
  import opened EnergyMeter
  import opened EnergyLedger
  import opened EnergyRuns

  /** What was measured by domain while any request was active. */
  datatype Joule = Joule(gpu: real, cpu: real)

  /** The meter's state, with what it has measured in all, the shares of the requests that left (ended
      or dropped), and what had been measured when each request came. */
  datatype World = World(s: Meters, measured: Joule, gone: map<nat, Share>, came: map<nat, Joule>)

  const START := World(Meters(map[], 0, None), Joule(0.0, 0.0), map[], map[])

  /** A request starts, or leaves (it ends or is dropped). `drawn` is what the lap read then says, and
      `work` what the probes read. */
  datatype Event =
    | Opens(drawn: Drawn, now: Reading, work: nat -> nat, probed: bool)
    | Leaves(id: nat, drawn: Drawn, now: Reading, work: nat -> nat)

  function JouleOf(w: Drawn): Joule { Joule(Joules(w.gpu), Joules(w.cpu)) }

  function Plus(a: Joule, b: Joule): Joule { Joule(a.gpu + b.gpu, a.cpu + b.cpu) }

  /** The meter is read and the sample split. */
  ghost function AfterLap(w: World, drawn: Drawn, now: Reading, work: nat -> nat): World {
    w.(s := Lapped(w.s, drawn, now, work),
       measured := if w.s.meter.None? then w.measured else Plus(w.measured, JouleOf(drawn)))
  }

  ghost function Next(w: World, e: Event): World {
    var l := AfterLap(w, e.drawn, e.now, e.work);
    match e
    case Opens(drawn, now, work, probed) =>
      l.(s := Opened(w.s, drawn, now, work, probed), came := l.came[w.s.nextId := l.measured])
    case Leaves(id, drawn, now, work) =>
      var (s, share) := Closed(w.s, id, drawn, now, work);
      l.(s := s, gone := if id in w.s.active then l.gone[id := share] else l.gone)
  }

  ghost function After(w: World, events: seq<Event>): World
    decreases |events|
  {
    if events == [] then w else After(Next(w, events[0]), events[1..])
  }

  // ----- Everything is accounted for -----

  ghost function ShareOf(active: Active, gone: map<nat, Share>, i: nat): Share {
    if i in active then active[i].share else if i in gone then gone[i] else NO_SHARE
  }

  ghost function GpuShares(active: Active, gone: map<nat, Share>): nat -> real {
    (i: nat) => Joules(ShareOf(active, gone, i).gpu)
  }

  ghost function CpuShares(active: Active, gone: map<nat, Share>): nat -> real {
    (i: nat) => Joules(ShareOf(active, gone, i).cpu)
  }

  ghost predicate InOrder(w: World) {
    && Below(w.s.active, w.s.nextId)
    && (forall id | id in w.gone :: id < w.s.nextId && id !in w.s.active)
    && (w.s.meter.Some? <==> w.s.active != map[])
    && (forall id | id in w.s.active :: id in w.came)
  }

  /** The shares of all requests, active and gone, add up to what was measured. */
  ghost predicate Conserved(w: World) {
    && Sum(w.s.nextId, GpuShares(w.s.active, w.gone)) == w.measured.gpu
    && Sum(w.s.nextId, CpuShares(w.s.active, w.gone)) == w.measured.cpu
  }

  /** A request that was never among others has been charged all that was measured since it came. */
  ghost predicate AloneIsCharged(w: World) {
    forall id | id in w.s.active && id in w.came && !w.s.active[id].share.shared ::
      && Joules(w.s.active[id].share.gpu) == w.measured.gpu - w.came[id].gpu
      && Joules(w.s.active[id].share.cpu) == w.measured.cpu - w.came[id].cpu
  }

  lemma TimesPart(a: Option<real>, part: real)
    ensures Joules(Times(a, part)) == Joules(a) * part
  {}

  lemma AddJoules(a: Option<real>, b: Option<real>)
    ensures Joules(Add(a, b)) == Joules(a) + Joules(b)
  {}

  /** One request's charge for a sample. */
  lemma ChargedIs(e: Entry, w: Drawn, d: nat, part: real, n: nat)
    ensures
      var after := Charged(e, w, d, part, n).share;
      && Joules(after.gpu) == Joules(e.share.gpu) + Joules(w.gpu) * part
      && Joules(after.cpu) == Joules(e.share.cpu) + Joules(w.cpu) * part
      && after.shared == (e.share.shared || n > 1)
  {
    TimesPart(w.gpu, part);
    TimesPart(w.cpu, part);
    AddJoules(e.share.gpu, Times(w.gpu, part));
    AddJoules(e.share.cpu, Times(w.cpu, part));
  }

  lemma SharesStep(active: Active, gone: map<nat, Share>, w: Drawn, work: nat -> nat, parts: nat -> real, i: nat)
    requires i !in active ==> parts(i) == 0.0
    ensures
      var after := Split(active, w, work, parts);
      && GpuShares(after, gone)(i) == GpuShares(active, gone)(i) + Joules(w.gpu) * parts(i)
      && CpuShares(after, gone)(i) == CpuShares(active, gone)(i) + Joules(w.cpu) * parts(i)
  {
    if i in active {
      ChargedIs(active[i], w, Done(active[i], i, work), parts(i), |active|);
    }
  }

  /** Every request has `c` times its part more. */
  ghost predicate Shifted(n: nat, before: nat -> real, after: nat -> real, parts: nat -> real, c: real) {
    forall i: nat | i < n :: after(i) == before(i) + c * parts(i)
  }

  lemma SplitShifts(active: Active, gone: map<nat, Share>, n: nat, w: Drawn, work: nat -> nat, parts: nat -> real)
    requires forall i: nat | i !in active :: parts(i) == 0.0
    ensures Shifted(n, GpuShares(active, gone), GpuShares(Split(active, w, work, parts), gone), parts, Joules(w.gpu))
    ensures Shifted(n, CpuShares(active, gone), CpuShares(Split(active, w, work, parts), gone), parts, Joules(w.cpu))
  {
    var after := Split(active, w, work, parts);
    forall i: nat | i < n
      ensures GpuShares(after, gone)(i) == GpuShares(active, gone)(i) + Joules(w.gpu) * parts(i)
      ensures CpuShares(after, gone)(i) == CpuShares(active, gone)(i) + Joules(w.cpu) * parts(i)
    {
      SharesStep(active, gone, w, work, parts, i);
    }
  }

  lemma SampleConserves(active: Active, gone: map<nat, Share>, n: nat, w: Drawn, work: nat -> nat)
    requires Below(active, n) && active != map[]
    ensures Sum(n, GpuShares(Sampled(active, w, work, n), gone)) == Sum(n, GpuShares(active, gone)) + Joules(w.gpu)
    ensures Sum(n, CpuShares(Sampled(active, w, work, n), gone)) == Sum(n, CpuShares(active, gone)) + Joules(w.cpu)
  {
    var parts := Parts(active, work, TotalDone(active, work, n));
    var after := Sampled(active, w, work, n);
    PartsAreWhole(active, work, n);
    SplitShifts(active, gone, n, w, work, parts);
    SumShifts(n, GpuShares(active, gone), GpuShares(after, gone), parts, Joules(w.gpu));
    SumShifts(n, CpuShares(active, gone), CpuShares(after, gone), parts, Joules(w.cpu));
  }

  lemma SumShifts(n: nat, before: nat -> real, after: nat -> real, parts: nat -> real, c: real)
    requires Sum(n, parts) == 1.0 && Shifted(n, before, after, parts, c)
    ensures Sum(n, after) == Sum(n, before) + c
  {
    SumScales(n, parts, c, Multiple(c, parts));
    SumAdds(n, before, Multiple(c, parts), after);
  }

  ghost function Multiple(c: real, f: nat -> real): nat -> real {
    (i: nat) => c * f(i)
  }

  lemma OnlyOne(active: Active, id: nat, work: nat -> nat, n: nat)
    requires Below(active, n) && id in active && |active| <= 1
    ensures Parts(active, work, TotalDone(active, work, n))(id) == 1.0
  {
    assert active.Keys == {id} by {
      var others := active.Keys - {id};
      assert |active.Keys| == |others| + 1;
    }
    PartsAreWhole(active, work, n);
    OneTerm(n, Parts(active, work, TotalDone(active, work, n)), id);
  }

  lemma {:induction false} OneTerm(n: nat, f: nat -> real, id: nat)
    requires forall i: nat | i < n && i != id :: f(i) == 0.0
    ensures Sum(n, f) == if id < n then f(id) else 0.0
  {
    if n > 0 {
      OneTerm(n - 1, f, id);
    }
  }

  /** What one request is charged for a sample. */
  function Charge(active: Active, after: Active, id: nat): Joule
    requires id in active && id in after
  {
    Joule(Joules(after[id].share.gpu) - Joules(active[id].share.gpu), Joules(after[id].share.cpu) - Joules(active[id].share.cpu))
  }

  /** A request is charged its part of each domain's energy. */
  lemma ChargeIs(active: Active, n: nat, w: Drawn, work: nat -> nat, id: nat, part: real)
    requires id in active && part == Parts(active, work, TotalDone(active, work, n))(id)
    ensures Charge(active, Sampled(active, w, work, n), id) == Joule(Joules(w.gpu) * part, Joules(w.cpu) * part)
  {
    ChargedIs(active[id], w, Done(active[id], id, work), part, |active|);
  }

  lemma DivideBack(d: real, total: real)
    requires total > 0.0
    ensures (d / total) * total == d
  {}

  /** The parts are as the work: a request's part of the work of all is the work it did itself. */
  lemma PartIsByWork(active: Active, work: nat -> nat, n: nat, id: nat)
    requires id in active && TotalDone(active, work, n) > 0
    ensures Parts(active, work, TotalDone(active, work, n))(id) * TotalDone(active, work, n) as real ==
            Done(active[id], id, work) as real
  {
    assert |active| > 0;
    DivideBack(Done(active[id], id, work) as real, TotalDone(active, work, n) as real);
  }

  /** When no work was counted, each is charged an even part. */
  lemma {:induction false} ChargedEvenly(active: Active, n: nat, w: Drawn, work: nat -> nat, id: nat)
    requires id in active && TotalDone(active, work, n) == 0
    ensures |active| > 0
    ensures Charge(active, Sampled(active, w, work, n), id) ==
            Joule(Joules(w.gpu) * (1.0 / |active| as real), Joules(w.cpu) * (1.0 / |active| as real))
  {
    assert |active| > 0;
    var part := Parts(active, work, TotalDone(active, work, n))(id);
    assert part == 1.0 / |active| as real;
    ChargeIs(active, n, w, work, id, part);
  }

  /** Work is sampled once: the next sample counts from what the probe reads now, or, where that has gone
      back, from what it read before. */
  lemma WorkIsCaughtUp(active: Active, n: nat, w: Drawn, work: nat -> nat, id: nat)
    requires id in active
    ensures Sampled(active, w, work, n)[id].workSampled ==
            if active[id].probed && active[id].workSampled <= work(id) then work(id) else active[id].workSampled
    ensures Sampled(active, w, work, n)[id].probed == active[id].probed
  {}

  // ----- Every step -----

  /** What every step keeps. */
  ghost predicate Inv(w: World) {
    InOrder(w) && Conserved(w) && AloneIsCharged(w)
  }

  lemma LapConserves(w: World, drawn: Drawn, now: Reading, work: nat -> nat)
    requires InOrder(w) && Conserved(w)
    ensures Conserved(AfterLap(w, drawn, now, work))
  {
    if w.s.meter.Some? {
      SampleConserves(w.s.active, w.gone, w.s.nextId, drawn, work);
    }
  }

  lemma LapInOrder(w: World, drawn: Drawn, now: Reading, work: nat -> nat)
    requires InOrder(w)
    ensures
      var l := AfterLap(w, drawn, now, work);
      && InOrder(l) && l.s.active.Keys == w.s.active.Keys && l.s.nextId == w.s.nextId && l.came == w.came && l.gone == w.gone
  {}

  /** A request alone over a sample takes all of it. */
  lemma AloneTakesAll(active: Active, n: nat, w: Drawn, work: nat -> nat, id: nat)
    requires Below(active, n) && id in active && !Sampled(active, w, work, n)[id].share.shared
    ensures !active[id].share.shared
    ensures Joules(Sampled(active, w, work, n)[id].share.gpu) == Joules(active[id].share.gpu) + Joules(w.gpu)
    ensures Joules(Sampled(active, w, work, n)[id].share.cpu) == Joules(active[id].share.cpu) + Joules(w.cpu)
  {
    var parts := Parts(active, work, TotalDone(active, work, n));
    ChargedIs(active[id], w, Done(active[id], id, work), parts(id), |active|);
    OnlyOne(active, id, work, n);
  }

  lemma LapCharges(w: World, drawn: Drawn, now: Reading, work: nat -> nat)
    requires InOrder(w) && AloneIsCharged(w)
    ensures AloneIsCharged(AfterLap(w, drawn, now, work))
  {
    if w.s.meter.Some? {
      var l := AfterLap(w, drawn, now, work);
      forall id | id in l.s.active && id in l.came && !l.s.active[id].share.shared
        ensures Joules(l.s.active[id].share.gpu) == l.measured.gpu - l.came[id].gpu
        ensures Joules(l.s.active[id].share.cpu) == l.measured.cpu - l.came[id].cpu
      {
        AloneTakesAll(w.s.active, w.s.nextId, drawn, work, id);
      }
    }
  }

  lemma LapKeeps(w: World, drawn: Drawn, now: Reading, work: nat -> nat)
    requires Inv(w)
    ensures Inv(AfterLap(w, drawn, now, work))
  {
    LapInOrder(w, drawn, now, work);
    LapConserves(w, drawn, now, work);
    LapCharges(w, drawn, now, work);
  }

  /** A request joins the ones there were. */
  ghost predicate Joined(l: World, next: World) {
    && next.s.nextId == l.s.nextId + 1 && next.s.meter.Some?
    && next.s.active.Keys == l.s.active.Keys + {l.s.nextId} && next.s.active[l.s.nextId].share == NO_SHARE
    && (forall id | id in l.s.active && id != l.s.nextId :: next.s.active[id] == l.s.active[id])
    && next.gone == l.gone && next.measured == l.measured && next.came == l.came[l.s.nextId := l.measured]
  }

  lemma JoinConserves(l: World, next: World)
    requires Inv(l) && Joined(l, next)
    ensures Conserved(next)
  {
    SumSame(l.s.nextId, GpuShares(l.s.active, l.gone), GpuShares(next.s.active, next.gone));
    SumSame(l.s.nextId, CpuShares(l.s.active, l.gone), CpuShares(next.s.active, next.gone));
  }

  lemma JoinKeeps(l: World, next: World)
    requires Inv(l) && Joined(l, next)
    ensures InOrder(next) && AloneIsCharged(next)
  {}

  /** A request leaves, and takes its share with it. */
  ghost predicate Left(l: World, next: World, id: nat) {
    && id in l.s.active && next.s.active == l.s.active - {id} && next.s.nextId == l.s.nextId
    && (next.s.meter.Some? <==> next.s.active != map[])
    && next.gone == l.gone[id := l.s.active[id].share] && next.measured == l.measured && next.came == l.came
  }

  lemma LeaveConserves(l: World, next: World, id: nat)
    requires Inv(l) && Left(l, next, id)
    ensures Conserved(next)
  {
    SumSame(l.s.nextId, GpuShares(next.s.active, next.gone), GpuShares(l.s.active, l.gone));
    SumSame(l.s.nextId, CpuShares(next.s.active, next.gone), CpuShares(l.s.active, l.gone));
  }

  lemma LeaveKeeps(l: World, next: World, id: nat)
    requires Inv(l) && Left(l, next, id)
    ensures InOrder(next) && AloneIsCharged(next)
  {}

  lemma OpenJoins(w: World, e: Event)
    requires InOrder(w) && e.Opens?
    ensures Joined(AfterLap(w, e.drawn, e.now, e.work), Next(w, e))
  {
    LapInOrder(w, e.drawn, e.now, e.work);
  }

  lemma LeaveLeaves(w: World, e: Event)
    requires InOrder(w) && e.Leaves? && e.id in w.s.active
    ensures Left(AfterLap(w, e.drawn, e.now, e.work), Next(w, e), e.id)
  {
    LapInOrder(w, e.drawn, e.now, e.work);
  }

  lemma StrangerLeaves(w: World, e: Event)
    requires InOrder(w) && e.Leaves? && e.id !in w.s.active
    ensures Next(w, e) == AfterLap(w, e.drawn, e.now, e.work)
  {
    var l := AfterLap(w, e.drawn, e.now, e.work);
    LapInOrder(w, e.drawn, e.now, e.work);
    assert l.s.active - {e.id} == l.s.active;
  }

  lemma NextKeeps(w: World, e: Event)
    requires Inv(w)
    ensures Inv(Next(w, e))
  {
    var l, next := AfterLap(w, e.drawn, e.now, e.work), Next(w, e);
    LapKeeps(w, e.drawn, e.now, e.work);
    match e
    case Opens(_, _, _, _) =>
      OpenJoins(w, e);
      JoinConserves(l, next);
      JoinKeeps(l, next);
    case Leaves(id, _, _, _) =>
      if id in w.s.active {
        LeaveLeaves(w, e);
        LeaveConserves(l, next, id);
        LeaveKeeps(l, next, id);
      } else {
        StrangerLeaves(w, e);
      }
  }

  lemma {:induction false} RunKeeps(w: World, events: seq<Event>)
    requires Inv(w)
    ensures Inv(After(w, events))
    decreases |events|
  {
    if events != [] {
      NextKeeps(w, events[0]);
      RunKeeps(Next(w, events[0]), events[1..]);
    }
  }

  lemma StartIsSound()
    ensures Inv(START)
  {}

  /** However requests come and go, and whatever the counters read: the shares of all of them, active,
      ended and dropped, add up to what was measured while any was active. */
  lemma NothingIsLost(events: seq<Event>)
    ensures
      var w := After(START, events);
      && Sum(w.s.nextId, GpuShares(w.s.active, w.gone)) == w.measured.gpu
      && Sum(w.s.nextId, CpuShares(w.s.active, w.gone)) == w.measured.cpu
  {
    RunKeeps(START, events);
  }

  // ----- What was measured is what was drawn -----

  function Minus(a: Joule, b: Joule): Joule { Joule(a.gpu - b.gpu, a.cpu - b.cpu) }

  /** What a run is metered on: the machine, whether its GPU has a counter, and the configured power of
      the CPU. */
  datatype Host = Host(machine: Machine, gpuRead: bool, tdp: real)
  {
    ghost predicate Valid() { Ranged(machine) }

    predicate CpuRead() { machine.RaplRead() }
  }

  /** A reading shows the counters that can be read, and the time. */
  ghost predicate Shows(h: Host, t: Truth, r: Reading)
    requires h.Valid() && |t.rapl| == |h.machine.domains|
  {
    && r.now == t.now && r.gpu == (if h.gpuRead then Some(t.gpu) else None)
    && (h.CpuRead() ==> r.rapl == ReadingOf(h.machine, t).rapl)
  }

  /** From one reading to the next: counters that are read only go up, none all the way round, and the
      clock runs on. */
  predicate GoesOn(h: Host, s: Truth, t: Truth)
    requires |s.rapl| == |h.machine.domains| == |t.rapl|
  {
    s.now <= t.now && (h.gpuRead ==> s.gpu <= t.gpu) && (h.CpuRead() ==> WithinRange(h.machine, s, t))
  }

  function CpuJoules(m: Machine, t: Truth): real { if |t.rapl| == |m.domains| then CpuJ(m, t) else 0.0 }

  /** What counts as drawn: what the GPU drew, if that is read. */
  function GpuOf(h: Host, t: Truth): real { if h.gpuRead then t.gpu else 0.0 }

  /** What the CPU drew, if that is read; otherwise its configured power, if there is one, over time. */
  function CpuOf(h: Host, t: Truth): real {
    if h.CpuRead() then CpuJoules(h.machine, t) else if h.tdp > 0.0 then h.tdp * t.now else 0.0
  }

  function InAll(h: Host, t: Truth): Joule { Joule(GpuOf(h, t), CpuOf(h, t)) }

  /** The event comes with what the meter reads. */
  ghost predicate Reads(h: Host, w: World, last: Truth, e: Event, t: Truth)
    requires h.Valid() && |last.rapl| == |h.machine.domains|
  {
    && |t.rapl| == |h.machine.domains| && Shows(h, t, e.now) && e.drawn == Measured(h.machine, w.s, e.now, h.tdp)
    && (w.s.active != map[] ==> GoesOn(h, last, t))
  }

  /** The open meter stands at the last reading. */
  ghost predicate ReadAt(h: Host, s: Meters, last: Truth)
    requires h.Valid() && |last.rapl| == |h.machine.domains|
  {
    s.meter.Some? ==> Shows(h, last, s.meter.value)
  }

  lemma TimesGrows(tdp: real, from: real, to: real)
    ensures tdp * (to - from) == tdp * to - tdp * from
  {}

  lemma {:induction false} LapShows(h: Host, s: Truth, t: Truth, from: Reading, to: Reading)
    requires h.Valid() && |s.rapl| == |h.machine.domains| == |t.rapl|
    requires Shows(h, s, from) && Shows(h, t, to) && GoesOn(h, s, t)
    ensures
      var w := LapOf(h.machine, from, to);
      && w.gpuCounted == h.gpuRead && (h.gpuRead ==> w.gpu == t.gpu - s.gpu) && w.duration == t.now - s.now
      && w.raplRead == h.CpuRead() && (h.CpuRead() ==> w.pkg + w.dram == CpuJ(h.machine, t) - CpuJ(h.machine, s))
  {
    if h.CpuRead() {
      RaplIsDrawn(h.machine, s, t, Package, |h.machine.domains|);
      RaplIsDrawn(h.machine, s, t, Dram, |h.machine.domains|);
    }
  }

  lemma {:induction false} MeasuredIsDrawn(h: Host, s: Truth, t: Truth, from: Reading, to: Reading)
    requires h.Valid() && |s.rapl| == |h.machine.domains| == |t.rapl|
    requires Shows(h, s, from) && Shows(h, t, to) && GoesOn(h, s, t)
    ensures JouleOf(DrawnIn(LapOf(h.machine, from, to), h.tdp)) == Minus(InAll(h, t), InAll(h, s))
  {
    LapShows(h, s, t, from, to);
    var w := LapOf(h.machine, from, to);
    TimesGrows(h.tdp, s.now, t.now);
    assert h.tdp * w.duration == h.tdp * t.now - h.tdp * s.now;
  }

  /** What was drawn since the last event, if a request was active. */
  ghost function DrawnSince(h: Host, w: World, last: Truth, t: Truth): Joule {
    if w.s.active == map[] then Joule(0.0, 0.0) else Minus(InAll(h, t), InAll(h, last))
  }

  lemma {:induction false} StepDraws(h: Host, w: World, last: Truth, e: Event, t: Truth)
    requires h.Valid() && |last.rapl| == |h.machine.domains| && Reads(h, w, last, e, t) && InOrder(w) && ReadAt(h, w.s, last)
    ensures AfterLap(w, e.drawn, e.now, e.work).measured == Plus(w.measured, DrawnSince(h, w, last, t))
  {
    if w.s.active != map[] {
      MeasuredIsDrawn(h, last, t, w.s.meter.value, e.now);
    }
  }

  lemma {:induction false} StepReads(h: Host, w: World, last: Truth, e: Event, t: Truth)
    requires h.Valid() && |last.rapl| == |h.machine.domains| && Reads(h, w, last, e, t) && InOrder(w) && ReadAt(h, w.s, last)
    ensures ReadAt(h, Next(w, e).s, t)
    ensures Next(w, e).measured == AfterLap(w, e.drawn, e.now, e.work).measured
  {
    if e.Leaves? {
      assert w.s.meter.None? ==> Next(w, e).s.active == map[];
    }
  }

  ghost predicate AllRead(h: Host, w: World, last: Truth, events: seq<Event>, truths: seq<Truth>)
    requires h.Valid() && |last.rapl| == |h.machine.domains|
    decreases |events|
  {
    && |events| == |truths|
    && (events != [] ==>
          && Reads(h, w, last, events[0], truths[0])
          && AllRead(h, Next(w, events[0]), truths[0], events[1..], truths[1..]))
  }

  /** Whether any request was active when each event came. */
  ghost function ActiveAt(w: World, events: seq<Event>): (r: seq<bool>)
    ensures |r| == |events|
    decreases |events|
  {
    if events == [] then [] else [w.s.active != map[]] + ActiveAt(Next(w, events[0]), events[1..])
  }

  /** By how much a quantity grew from moment to moment, counting the stretches that are `active`. */
  function Over(active: seq<bool>, last: Truth, truths: seq<Truth>, q: Truth -> real): real
    requires |active| == |truths|
    decreases |truths|
  {
    if truths == [] then 0.0
    else (if active[0] then q(truths[0]) - q(last) else 0.0) + Over(active[1..], truths[0], truths[1..], q)
  }

  /** By how much it grew over a run while any request was active. */
  ghost function WhileActive(w: World, last: Truth, events: seq<Event>, truths: seq<Truth>, q: Truth -> real): real
    requires |events| == |truths|
  {
    Over(ActiveAt(w, events), last, truths, q)
  }

  lemma {:induction false} WhileStep(w: World, last: Truth, events: seq<Event>, truths: seq<Truth>, q: Truth -> real)
    requires |events| == |truths| && events != []
    ensures WhileActive(w, last, events, truths, q) ==
            (if w.s.active == map[] then 0.0 else q(truths[0]) - q(last)) +
            WhileActive(Next(w, events[0]), truths[0], events[1..], truths[1..], q)
  {
    var active, rest := ActiveAt(w, events), ActiveAt(Next(w, events[0]), events[1..]);
    assert active == [w.s.active != map[]] + rest && active[1..] == rest;
  }

  /** `gpu` and `cpu` are what counts as drawn, as quantities. */
  ghost predicate Count(h: Host, gpu: Truth -> real, cpu: Truth -> real) {
    forall t: Truth :: gpu(t) == GpuOf(h, t) && cpu(t) == CpuOf(h, t)
  }

  lemma {:induction false} RunDraws(h: Host, w: World, last: Truth, events: seq<Event>, truths: seq<Truth>,
                                    gpu: Truth -> real, cpu: Truth -> real)
    requires h.Valid() && |last.rapl| == |h.machine.domains| && Count(h, gpu, cpu)
    requires Inv(w) && ReadAt(h, w.s, last) && AllRead(h, w, last, events, truths)
    ensures After(w, events).measured.gpu == w.measured.gpu + WhileActive(w, last, events, truths, gpu)
    ensures After(w, events).measured.cpu == w.measured.cpu + WhileActive(w, last, events, truths, cpu)
    decreases |events|
  {
    if events != [] {
      var e, t := events[0], truths[0];
      StepDraws(h, w, last, e, t);
      StepReads(h, w, last, e, t);
      NextKeeps(w, e);
      RunDraws(h, Next(w, e), t, events[1..], truths[1..], gpu, cpu);
      StepCounts(h, w, last, t, gpu, cpu);
      WhileStep(w, last, events, truths, gpu);
      WhileStep(w, last, events, truths, cpu);
    }
  }

  lemma StepCounts(h: Host, w: World, last: Truth, t: Truth, gpu: Truth -> real, cpu: Truth -> real)
    requires Count(h, gpu, cpu)
    ensures DrawnSince(h, w, last, t) ==
            if w.s.active == map[] then Joule(0.0, 0.0) else Joule(gpu(t) - gpu(last), cpu(t) - cpu(last))
  {}

  ghost predicate AddsUp(f: real -> real, a: real, b: real) {
    f(a + b) == f(a) + f(b) && f(a - b) == f(a) - f(b)
  }

  ghost predicate Additive(f: real -> real) {
    f(0.0) == 0.0 && forall a, b :: AddsUp(f, a, b)
  }

  /** A quantity that is another one, times a constant, say, grows as much as that does times the constant. */
  lemma {:induction false} OverMaps(active: seq<bool>, last: Truth, truths: seq<Truth>, q: Truth -> real, r: Truth -> real,
                                    f: real -> real)
    requires |active| == |truths| && Additive(f) && forall t: Truth :: r(t) == f(q(t))
    ensures Over(active, last, truths, r) == f(Over(active, last, truths, q))
    decreases |truths|
  {
    if truths != [] {
      var t := truths[0];
      var rest := Over(active[1..], t, truths[1..], q);
      OverMaps(active[1..], t, truths[1..], q, r, f);
      assert AddsUp(f, q(t), q(last)) && AddsUp(f, q(t) - q(last), rest);
    }
  }

  function By(c: real): real -> real { (x: real) => c * x }

  lemma ByIsAdditive(c: real)
    ensures Additive(By(c))
  {
    forall a, b
      ensures AddsUp(By(c), a, b)
    {
      Distribute(c, a, b);
      TimesGrows(c, b, a);
    }
  }

  // The quantities that are counted.

  function GpuTotal(): Truth -> real { (t: Truth) => t.gpu }

  function CpuTotal(m: Machine): Truth -> real { (t: Truth) => CpuJoules(m, t) }

  function Clock(): Truth -> real { (t: Truth) => t.now }

  function Scaled(c: real, q: Truth -> real): Truth -> real { (t: Truth) => c * q(t) }

  /** What the GPU's and the CPU's part are in these terms. */
  function GpuPart(h: Host): Truth -> real { Scaled(if h.gpuRead then 1.0 else 0.0, GpuTotal()) }

  function CpuPart(h: Host): Truth -> real {
    if h.CpuRead() then Scaled(1.0, CpuTotal(h.machine)) else Scaled(if h.tdp > 0.0 then h.tdp else 0.0, Clock())
  }

  lemma PartsCount(h: Host)
    ensures Count(h, GpuPart(h), CpuPart(h))
  {}

  lemma {:induction false} OverScaled(active: seq<bool>, last: Truth, truths: seq<Truth>, q: Truth -> real, c: real)
    requires |active| == |truths|
    ensures Over(active, last, truths, Scaled(c, q)) == c * Over(active, last, truths, q)
  {
    ByIsAdditive(c);
    OverMaps(active, last, truths, q, Scaled(c, q), By(c));
  }

  lemma {:induction false} PartsOver(h: Host, active: seq<bool>, last: Truth, truths: seq<Truth>)
    requires |active| == |truths|
    ensures Over(active, last, truths, GpuPart(h)) == if h.gpuRead then Over(active, last, truths, GpuTotal()) else 0.0
    ensures Over(active, last, truths, CpuPart(h)) ==
            if h.CpuRead() then Over(active, last, truths, CpuTotal(h.machine))
            else if h.tdp > 0.0 then h.tdp * Over(active, last, truths, Clock())
            else 0.0
  {
    OverScaled(active, last, truths, GpuTotal(), if h.gpuRead then 1.0 else 0.0);
    if h.CpuRead() {
      OverScaled(active, last, truths, CpuTotal(h.machine), 1.0);
    } else {
      OverScaled(active, last, truths, Clock(), if h.tdp > 0.0 then h.tdp else 0.0);
    }
  }

  /** A run's sums of shares, as quantities of the run. */
  ghost predicate AreDrawn(h: Host, gpu: real, cpu: real, active: seq<bool>, first: Truth, truths: seq<Truth>)
    requires |active| == |truths|
  {
    && gpu == (if h.gpuRead then Over(active, first, truths, GpuTotal()) else 0.0)
    && cpu == (if h.CpuRead() then Over(active, first, truths, CpuTotal(h.machine))
               else if h.tdp > 0.0 then h.tdp * Over(active, first, truths, Clock())
               else 0.0)
  }

  lemma {:induction false} PartsAreDrawn(h: Host, gpu: real, cpu: real, active: seq<bool>, first: Truth, truths: seq<Truth>)
    requires |active| == |truths|
    requires gpu == Over(active, first, truths, GpuPart(h)) && cpu == Over(active, first, truths, CpuPart(h))
    ensures AreDrawn(h, gpu, cpu, active, first, truths)
  {
    PartsOver(h, active, first, truths);
  }

  /** The shares of all requests add up to the energy drawn while at least one of them was active, over
      any number of wraps of the counters. Where the CPU's counters cannot be read, its part is the
      configured power times the seconds during which one was active, and nothing without one. */
  lemma {:induction false} SharesAreWhatWasDrawn(h: Host, first: Truth, events: seq<Event>, truths: seq<Truth>)
    requires h.Valid() && |first.rapl| == |h.machine.domains| && AllRead(h, START, first, events, truths)
    ensures
      var w := After(START, events);
      AreDrawn(h, Sum(w.s.nextId, GpuShares(w.s.active, w.gone)), Sum(w.s.nextId, CpuShares(w.s.active, w.gone)),
             ActiveAt(START, events), first, truths)
  {
    var w := After(START, events);
    NothingIsLost(events);
    StartDraws(h, first, events, truths);
    PartsAreDrawn(h, Sum(w.s.nextId, GpuShares(w.s.active, w.gone)), Sum(w.s.nextId, CpuShares(w.s.active, w.gone)),
                   ActiveAt(START, events), first, truths);
  }

  lemma {:induction false} StartDraws(h: Host, first: Truth, events: seq<Event>, truths: seq<Truth>)
    requires h.Valid() && |first.rapl| == |h.machine.domains| && AllRead(h, START, first, events, truths)
    ensures After(START, events).measured.gpu == WhileActive(START, first, events, truths, GpuPart(h))
    ensures After(START, events).measured.cpu == WhileActive(START, first, events, truths, CpuPart(h))
  {
    StartIsSound();
    PartsCount(h);
    RunDraws(h, START, first, events, truths, GpuPart(h), CpuPart(h));
  }

  // ----- Lives -----

  /** Since each active request came, what was measured is what was drawn. */
  ghost predicate LivesAreDrawn(h: Host, w: World, last: Truth, cameAt: map<nat, Truth>)
    requires |last.rapl| == |h.machine.domains|
  {
    forall id | id in w.s.active ::
      && id in w.came && id in cameAt && |cameAt[id].rapl| == |h.machine.domains|
      && Minus(w.measured, w.came[id]) == Minus(InAll(h, last), InAll(h, cameAt[id]))
  }

  function CameAt(w: World, e: Event, t: Truth, cameAt: map<nat, Truth>): map<nat, Truth> {
    if e.Opens? then cameAt[w.s.nextId := t] else cameAt
  }

  /** What was measured since a request came grows as what was drawn does. */
  lemma SpanGrows(measured: Joule, came: Joule, from: Joule, to: Joule, start: Joule)
    requires Minus(measured, came) == Minus(from, start)
    ensures Minus(Plus(measured, Minus(to, from)), came) == Minus(to, start)
  {}

  lemma {:induction false} LapGoesOn(h: Host, w: World, last: Truth, e: Event, t: Truth, cameAt: map<nat, Truth>)
    requires h.Valid() && |last.rapl| == |h.machine.domains| && Reads(h, w, last, e, t) && InOrder(w) && ReadAt(h, w.s, last)
    requires LivesAreDrawn(h, w, last, cameAt)
    ensures LivesAreDrawn(h, AfterLap(w, e.drawn, e.now, e.work), t, cameAt)
  {
    var l := AfterLap(w, e.drawn, e.now, e.work);
    LapInOrder(w, e.drawn, e.now, e.work);
    StepDraws(h, w, last, e, t);
    forall id | id in l.s.active
      ensures id in l.came && id in cameAt && |cameAt[id].rapl| == |h.machine.domains|
      ensures Minus(l.measured, l.came[id]) == Minus(InAll(h, t), InAll(h, cameAt[id]))
    {
      assert id in w.s.active.Keys;
      SpanGrows(w.measured, w.came[id], InAll(h, last), InAll(h, t), InAll(h, cameAt[id]));
    }
  }

  lemma LivesGoOn(h: Host, w: World, last: Truth, e: Event, t: Truth, cameAt: map<nat, Truth>)
    requires h.Valid() && |last.rapl| == |h.machine.domains| && Reads(h, w, last, e, t) && InOrder(w) && ReadAt(h, w.s, last)
    requires LivesAreDrawn(h, w, last, cameAt)
    ensures LivesAreDrawn(h, Next(w, e), t, CameAt(w, e, t, cameAt))
  {
    LapGoesOn(h, w, last, e, t, cameAt);
    LapInOrder(w, e.drawn, e.now, e.work);
    if e.Opens? {
      OpenJoins(w, e);
    } else if e.id in w.s.active {
      LeaveLeaves(w, e);
    } else {
      StrangerLeaves(w, e);
    }
  }

  lemma AloneSpan(l: World, id: nat, now: Joule, before: Joule)
    requires AloneIsCharged(l) && id in l.s.active && id in l.came && !l.s.active[id].share.shared
    requires Minus(l.measured, l.came[id]) == Minus(now, before)
    ensures Joule(Joules(l.s.active[id].share.gpu), Joules(l.s.active[id].share.cpu)) == Minus(now, before)
  {}

  /** The last step of a life: what an unshared request has been charged when it leaves. */
  lemma UnsharedLeaves(h: Host, w: World, last: Truth, e: Event, t: Truth, cameAt: map<nat, Truth>)
    requires h.Valid() && |last.rapl| == |h.machine.domains| && Inv(w) && e.Leaves? && e.id in w.s.active
    requires Reads(h, w, last, e, t) && ReadAt(h, w.s, last) && LivesAreDrawn(h, w, last, cameAt)
    requires !Closed(w.s, e.id, e.drawn, e.now, e.work).1.shared
    ensures e.id in cameAt && |cameAt[e.id].rapl| == |h.machine.domains|
    ensures
      var share := Closed(w.s, e.id, e.drawn, e.now, e.work).1;
      Joule(Joules(share.gpu), Joules(share.cpu)) == Minus(InAll(h, t), InAll(h, cameAt[e.id]))
  {
    var l := AfterLap(w, e.drawn, e.now, e.work);
    LapInOrder(w, e.drawn, e.now, e.work);
    LapCharges(w, e.drawn, e.now, e.work);
    LapGoesOn(h, w, last, e, t, cameAt);
    AloneSpan(l, e.id, InAll(h, t), InAll(h, cameAt[e.id]));
  }

  // ----- Lives over whole runs -----

  function LastTruth(first: Truth, truths: seq<Truth>): Truth {
    if truths == [] then first else truths[|truths| - 1]
  }

  /** The machine as each request of a run found it when it came. */
  ghost function CameOver(w: World, events: seq<Event>, truths: seq<Truth>, cameAt: map<nat, Truth>): map<nat, Truth>
    requires |events| == |truths|
    decreases |events|
  {
    if events == [] then cameAt
    else CameOver(Next(w, events[0]), events[1..], truths[1..], CameAt(w, events[0], truths[0], cameAt))
  }

  lemma LastOfRest(first: Truth, truths: seq<Truth>)
    requires truths != []
    ensures LastTruth(first, truths) == LastTruth(truths[0], truths[1..])
  {}

  /** Whatever run led here, what was measured since each active request came is what was drawn since. */
  lemma {:induction false} RunLives(h: Host, w: World, last: Truth, events: seq<Event>, truths: seq<Truth>,
                                    cameAt: map<nat, Truth>)
    requires h.Valid() && |last.rapl| == |h.machine.domains| && AllRead(h, w, last, events, truths)
    requires Inv(w) && ReadAt(h, w.s, last) && LivesAreDrawn(h, w, last, cameAt)
    ensures |LastTruth(last, truths).rapl| == |h.machine.domains|
    ensures Inv(After(w, events)) && ReadAt(h, After(w, events).s, LastTruth(last, truths))
    ensures LivesAreDrawn(h, After(w, events), LastTruth(last, truths), CameOver(w, events, truths, cameAt))
    decreases |events|
  {
    if events != [] {
      var e, t := events[0], truths[0];
      NextKeeps(w, e);
      StepReads(h, w, last, e, t);
      LivesGoOn(h, w, last, e, t, cameAt);
      LastOfRest(last, truths);
      RunLives(h, Next(w, e), t, events[1..], truths[1..], CameAt(w, e, t, cameAt));
    }
  }

  /** A run and one event more. */
  lemma {:induction false} ReadsAtTheEnd(h: Host, w: World, last: Truth, events: seq<Event>, truths: seq<Truth>,
                                         e: Event, t: Truth)
    requires h.Valid() && |last.rapl| == |h.machine.domains| && |events| == |truths|
    requires AllRead(h, w, last, events + [e], truths + [t])
    ensures AllRead(h, w, last, events, truths) && |LastTruth(last, truths).rapl| == |h.machine.domains|
    ensures Reads(h, After(w, events), LastTruth(last, truths), e, t)
    decreases |events|
  {
    if events == [] {
      assert (events + [e])[0] == e && (truths + [t])[0] == t;
    } else {
      assert (events + [e])[1..] == events[1..] + [e] && (truths + [t])[1..] == truths[1..] + [t];
      assert (events + [e])[0] == events[0] && (truths + [t])[0] == truths[0];
      LastOfRest(last, truths);
      ReadsAtTheEnd(h, Next(w, events[0]), truths[0], events[1..], truths[1..], e, t);
    }
  }

  lemma IdsGrow(w: World, e: Event)
    ensures Next(w, e).s.nextId == w.s.nextId + if e.Opens? then 1 else 0
  {}

  /** An id is given once: a later event does not change when its request came. */
  lemma {:induction false} CameOnce(w: World, events: seq<Event>, truths: seq<Truth>, cameAt: map<nat, Truth>, id: nat)
    requires |events| == |truths| && id < w.s.nextId && id in cameAt
    ensures id in CameOver(w, events, truths, cameAt) && CameOver(w, events, truths, cameAt)[id] == cameAt[id]
    decreases |events|
  {
    if events != [] {
      IdsGrow(w, events[0]);
      CameOnce(Next(w, events[0]), events[1..], truths[1..], CameAt(w, events[0], truths[0], cameAt), id);
    }
  }

  /** The event that gives an id is the one its request came with. */
  lemma {:induction false} CameWith(w: World, events: seq<Event>, truths: seq<Truth>, cameAt: map<nat, Truth>, k: nat)
    requires |events| == |truths| && k < |events| && events[k].Opens?
    ensures
      var id := After(w, events[..k]).s.nextId;
      id in CameOver(w, events, truths, cameAt) && CameOver(w, events, truths, cameAt)[id] == truths[k]
    decreases k
  {
    var e, t := events[0], truths[0];
    if k == 0 {
      IdsGrow(w, e);
      CameOnce(Next(w, e), events[1..], truths[1..], CameAt(w, e, t, cameAt), w.s.nextId);
    } else {
      assert events[..k][1..] == events[1..][..k - 1];
      CameWith(Next(w, e), events[1..], truths[1..], CameAt(w, e, t, cameAt), k - 1);
    }
  }

  /** `gpu` and `cpu` are what was drawn between two moments; where the CPU's counters cannot be read, the
      configured power over the time between them. */
  ghost predicate IsLife(h: Host, gpu: real, cpu: real, from: Truth, to: Truth)
    requires |from.rapl| == |h.machine.domains| == |to.rapl|
  {
    && gpu == (if h.gpuRead then to.gpu - from.gpu else 0.0)
    && cpu == (if h.CpuRead() then CpuJ(h.machine, to) - CpuJ(h.machine, from)
               else if h.tdp > 0.0 then h.tdp * (to.now - from.now)
               else 0.0)
  }

  lemma LifeIs(h: Host, from: Truth, to: Truth, gpu: real, cpu: real)
    requires |from.rapl| == |h.machine.domains| == |to.rapl|
    requires Joule(gpu, cpu) == Minus(InAll(h, to), InAll(h, from))
    ensures IsLife(h, gpu, cpu, from, to)
  {
    TimesGrows(h.tdp, from.now, to.now);
  }

  lemma {:induction false} UnsharedSpan(h: Host, first: Truth, events: seq<Event>, truths: seq<Truth>, e: Event, t: Truth,
                            k: nat)
    requires h.Valid() && |first.rapl| == |h.machine.domains| && |events| == |truths|
    requires AllRead(h, START, first, events + [e], truths + [t])
    requires k < |events| && events[k].Opens? && e == Leaves(After(START, events[..k]).s.nextId, e.drawn, e.now, e.work)
    requires e.id in After(START, events).s.active
    requires !Closed(After(START, events).s, e.id, e.drawn, e.now, e.work).1.shared
    ensures |t.rapl| == |h.machine.domains| == |truths[k].rapl|
    ensures
      var share := Closed(After(START, events).s, e.id, e.drawn, e.now, e.work).1;
      Joule(Joules(share.gpu), Joules(share.cpu)) == Minus(InAll(h, t), InAll(h, truths[k]))
  {
    ReadsAtTheEnd(h, START, first, events, truths, e, t);
    StartIsSound();
    RunLives(h, START, first, events, truths, map[]);
    CameWith(START, events, truths, map[], k);
    UnsharedLeaves(h, After(START, events), LastTruth(first, truths), e, t, CameOver(START, events, truths, map[]));
  }

  /** Over any run: a request that leaves without ever having been marked shared is charged all that was
      drawn over its life, from the reading of the event `k` it came with to the one it leaves with, over
      any number of wraps of the counters; where the CPU's cannot be read, the configured power over it. */
  lemma {:induction false} UnsharedPaysItsLife(h: Host, first: Truth, events: seq<Event>, truths: seq<Truth>, e: Event, t: Truth,
                            k: nat)
    requires h.Valid() && |first.rapl| == |h.machine.domains| && |events| == |truths|
    requires AllRead(h, START, first, events + [e], truths + [t])
    requires k < |events| && events[k].Opens? && e == Leaves(After(START, events[..k]).s.nextId, e.drawn, e.now, e.work)
    requires e.id in After(START, events).s.active
    requires !Closed(After(START, events).s, e.id, e.drawn, e.now, e.work).1.shared
    ensures |t.rapl| == |h.machine.domains| == |truths[k].rapl|
    ensures
      var share := Closed(After(START, events).s, e.id, e.drawn, e.now, e.work).1;
      IsLife(h, Joules(share.gpu), Joules(share.cpu), truths[k], t)
  {
    UnsharedSpan(h, first, events, truths, e, t, k);
    var share := Closed(After(START, events).s, e.id, e.drawn, e.now, e.work).1;
    LifeIs(h, truths[k], t, Joules(share.gpu), Joules(share.cpu));
  }

  // ----- What a share says of itself -----

  /** A share says no more than could be read. */
  predicate Marked(h: Host, s: Share) {
    && (s.gpu.Some? ==> h.gpuRead) && (s.cpu.Some? ==> h.CpuRead() || h.tdp > 0.0) && (s.cpuEstimated ==> !h.CpuRead())
  }

  /** And all that could: which parts it has, and whether the CPU's was read. */
  predicate Reported(h: Host, s: Share) {
    && (s.gpu.Some? <==> h.gpuRead) && (s.cpu.Some? <==> h.CpuRead() || h.tdp > 0.0) && (s.cpuEstimated <==> !h.CpuRead())
  }

  ghost predicate AllMarked(h: Host, w: World) {
    && (forall id | id in w.s.active :: Marked(h, w.s.active[id].share))
    && (forall id | id in w.gone :: Reported(h, w.gone[id]))
  }

  lemma {:induction false} SampleReports(h: Host, e: Entry, w: Window, d: nat, part: real, n: nat)
    requires w.gpuCounted == h.gpuRead && w.raplRead == h.CpuRead() && Marked(h, e.share)
    ensures Reported(h, Charged(e, DrawnIn(w, h.tdp), d, part, n).share)
  {}

  lemma {:induction false} LapReports(h: Host, w: World, last: Truth, e: Event, t: Truth)
    requires h.Valid() && |last.rapl| == |h.machine.domains| && Reads(h, w, last, e, t) && InOrder(w) && ReadAt(h, w.s, last)
    requires AllMarked(h, w)
    ensures
      var l := AfterLap(w, e.drawn, e.now, e.work);
      && l.gone == w.gone && l.s.active.Keys == w.s.active.Keys
      && forall id | id in l.s.active :: Reported(h, l.s.active[id].share)
  {
    LapInOrder(w, e.drawn, e.now, e.work);
    if w.s.active != map[] {
      LapShows(h, last, t, w.s.meter.value, e.now);
      var l, window := AfterLap(w, e.drawn, e.now, e.work), LapOf(h.machine, w.s.meter.value, e.now);
      forall id | id in l.s.active
        ensures Reported(h, l.s.active[id].share)
      {
        var x, parts := w.s.active[id], Parts(w.s.active, e.work, TotalDone(w.s.active, e.work, w.s.nextId));
        SampleReports(h, x, window, Done(x, id, e.work), parts(id), |w.s.active|);
      }
    }
  }

  /** After a lap every share reports. */
  ghost predicate AllReported(h: Host, l: World) {
    && (forall id | id in l.s.active :: Reported(h, l.s.active[id].share))
    && (forall id | id in l.gone :: Reported(h, l.gone[id]))
  }

  lemma JoinReports(h: Host, l: World, next: World)
    requires AllReported(h, l) && Joined(l, next)
    ensures AllMarked(h, next)
  {}

  lemma LeaveReports(h: Host, l: World, next: World, id: nat)
    requires AllReported(h, l) && Left(l, next, id)
    ensures AllMarked(h, next)
  {}

  lemma {:induction false} StepReports(h: Host, w: World, last: Truth, e: Event, t: Truth)
    requires h.Valid() && |last.rapl| == |h.machine.domains| && Reads(h, w, last, e, t) && InOrder(w) && ReadAt(h, w.s, last)
    requires AllMarked(h, w)
    ensures AllMarked(h, Next(w, e))
  {
    LapReports(h, w, last, e, t);
    var l := AfterLap(w, e.drawn, e.now, e.work);
    LapInOrder(w, e.drawn, e.now, e.work);
    if e.Opens? {
      OpenJoins(w, e);
      JoinReports(h, l, Next(w, e));
    } else if e.id in w.s.active {
      LeaveLeaves(w, e);
      LeaveReports(h, l, Next(w, e), e.id);
    } else {
      StrangerLeaves(w, e);
    }
  }

  lemma {:induction false} RunReports(h: Host, w: World, last: Truth, events: seq<Event>, truths: seq<Truth>)
    requires h.Valid() && |last.rapl| == |h.machine.domains| && AllRead(h, w, last, events, truths)
    requires Inv(w) && ReadAt(h, w.s, last) && AllMarked(h, w)
    ensures AllMarked(h, After(w, events))
    decreases |events|
  {
    if events != [] {
      var e, t := events[0], truths[0];
      StepReports(h, w, last, e, t);
      StepReads(h, w, last, e, t);
      NextKeeps(w, e);
      RunReports(h, Next(w, e), t, events[1..], truths[1..]);
    }
  }

  /** Over any run: the share of every request that left has a GPU part exactly if the GPU is read, a CPU
      part exactly if that is read or a power is configured, and says it is estimated exactly if it is not
      read. */
  lemma {:induction false} SharesSayWhatWasRead(h: Host, first: Truth, events: seq<Event>, truths: seq<Truth>, id: nat)
    requires h.Valid() && |first.rapl| == |h.machine.domains| && AllRead(h, START, first, events, truths)
    requires id in After(START, events).gone
    ensures
      var s := After(START, events).gone[id];
      && (s.gpu.Some? <==> h.gpuRead)
      && (s.cpu.Some? <==> h.machine.RaplRead() || h.tdp > 0.0)
      && (s.cpuEstimated <==> !h.machine.RaplRead())
  {
    StartIsSound();
    RunReports(h, START, first, events, truths);
  }

  // ----- What work counts -----

  /** Probes do not go back over a run: `before` is what they read last. */
  ghost predicate Forward(before: nat -> nat, events: seq<Event>)
    decreases |events|
  {
    events != [] ==> (forall id: nat :: before(id) <= events[0].work(id)) && Forward(events[0].work, events[1..])
  }

  /** Each probed request's work stands at what its probe read last. */
  ghost predicate AtLast(active: Active, work: nat -> nat) {
    forall id | id in active && active[id].probed :: active[id].workSampled == work(id)
  }

  lemma StepIsAtLast(w: World, e: Event, before: nat -> nat)
    requires InOrder(w) && AtLast(w.s.active, before) && forall id: nat :: before(id) <= e.work(id)
    ensures AtLast(Next(w, e).s.active, e.work)
  {
    var l := AfterLap(w, e.drawn, e.now, e.work);
    LapInOrder(w, e.drawn, e.now, e.work);
    forall id | id in l.s.active && l.s.active[id].probed
      ensures l.s.active[id].workSampled == e.work(id)
    {
      WorkIsCaughtUp(w.s.active, w.s.nextId, e.drawn, e.work, id);
    }
  }

  function LastWork(before: nat -> nat, events: seq<Event>): nat -> nat {
    if events == [] then before else events[|events| - 1].work
  }

  lemma LastOfWork(before: nat -> nat, events: seq<Event>)
    requires events != []
    ensures LastWork(before, events) == LastWork(events[0].work, events[1..])
  {}

  lemma {:induction false} RunIsAtLast(w: World, events: seq<Event>, before: nat -> nat)
    requires Inv(w) && AtLast(w.s.active, before) && Forward(before, events)
    ensures AtLast(After(w, events).s.active, LastWork(before, events))
    decreases |events|
  {
    if events != [] {
      StepIsAtLast(w, events[0], before);
      NextKeeps(w, events[0]);
      RunIsAtLast(Next(w, events[0]), events[1..], events[0].work);
      LastOfWork(before, events);
    }
  }

  /** After any run whose probes do not go back, a sample counts for each probed request the work it did
      since the last event, be that the one it came with or a later one, and nothing for the others. */
  lemma WorkSinceLast(events: seq<Event>, before: nat -> nat, work: nat -> nat, id: nat)
    requires Forward(before, events) && id in After(START, events).s.active
    requires LastWork(before, events)(id) <= work(id)
    ensures
      var e := After(START, events).s.active[id];
      Done(e, id, work) == if e.probed then work(id) - LastWork(before, events)(id) else 0
  {
    StartIsSound();
    RunIsAtLast(START, events, before);
  }

  // ----- Who is marked -----

  /** At some event of the run the request was active among others. */
  ghost predicate AmongOthers(w: World, events: seq<Event>, id: nat)
    decreases |events|
  {
    events != [] && ((id in w.s.active && |w.s.active| > 1) || AmongOthers(Next(w, events[0]), events[1..], id))
  }

  lemma StepMarks(w: World, e: Event, id: nat)
    requires InOrder(w) && id < w.s.nextId
    ensures
      var next := Next(w, e);
      && id < next.s.nextId
      && ShareOf(next.s.active, next.gone, id).shared ==
           (ShareOf(w.s.active, w.gone, id).shared || (id in w.s.active && |w.s.active| > 1))
  {
    var l := AfterLap(w, e.drawn, e.now, e.work);
    LapInOrder(w, e.drawn, e.now, e.work);
    LapMarks(w, e, id);
    if e.Opens? {
      OpenJoins(w, e);
    } else if e.id in w.s.active {
      LeaveLeaves(w, e);
    } else {
      StrangerLeaves(w, e);
    }
  }

  lemma LapMarks(w: World, e: Event, id: nat)
    requires InOrder(w)
    ensures
      var l := AfterLap(w, e.drawn, e.now, e.work);
      ShareOf(l.s.active, l.gone, id).shared ==
        (ShareOf(w.s.active, w.gone, id).shared || (id in w.s.active && |w.s.active| > 1))
  {
    LapInOrder(w, e.drawn, e.now, e.work);
    if id in w.s.active {
      var x, parts := w.s.active[id], Parts(w.s.active, e.work, TotalDone(w.s.active, e.work, w.s.nextId));
      ChargedIs(x, e.drawn, Done(x, id, e.work), parts(id), |w.s.active|);
    }
  }

  lemma NotYetMarked(w: World, e: Event, id: nat)
    requires InOrder(w) && id >= w.s.nextId
    ensures
      var next := Next(w, e);
      id !in w.s.active && (id < next.s.nextId ==> !ShareOf(next.s.active, next.gone, id).shared)
  {
    LapInOrder(w, e.drawn, e.now, e.work);
    if e.Opens? {
      OpenJoins(w, e);
    } else if e.id in w.s.active {
      LeaveLeaves(w, e);
    } else {
      StrangerLeaves(w, e);
    }
  }

  lemma {:induction false} RunMarks(w: World, events: seq<Event>, id: nat)
    requires Inv(w) && id < After(w, events).s.nextId
    ensures
      var end := After(w, events);
      ShareOf(end.s.active, end.gone, id).shared ==
        ((id < w.s.nextId && ShareOf(w.s.active, w.gone, id).shared) || AmongOthers(w, events, id))
    decreases |events|
  {
    if events != [] {
      NextKeeps(w, events[0]);
      RunMarks(Next(w, events[0]), events[1..], id);
      if id < w.s.nextId {
        StepMarks(w, events[0], id);
      } else {
        NotYetMarked(w, events[0], id);
      }
    }
  }

  /** Over any run: a request's share, while it is active and when it has left, is marked shared exactly if
      at some event the request was active among others. */
  lemma SharedIff(events: seq<Event>, id: nat)
    requires id < After(START, events).s.nextId
    ensures
      var end := After(START, events);
      ShareOf(end.s.active, end.gone, id).shared <==> AmongOthers(START, events, id)
  {
    StartIsSound();
    RunMarks(START, events, id);
  }
}

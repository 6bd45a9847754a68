/**
 The energy meter: hardware counters read at each lap. RAPL counters wrap around at a known range; a
 lap that draws less than the range is measured exactly, and so laps add up however often the counters
 wrap. Readings are in microjoules for RAPL and joules for the GPU; joules are real numbers.
 */
module EnergyMeter {
  import opened Text
  import opened DivMod

  datatype Kind = Package | Dram
  datatype Domain = Domain(maxRange: nat, kind: Kind)

  /** One reading of everything: the GPU's counter, each domain's, and the clock. */
  datatype Reading = Reading(gpu: Option<real>, rapl: seq<Option<nat>>, now: real)

  /** What a window's total counts. */
  datatype Source = FromGpu | FromPkg | FromDram

  /** What was drawn between two readings, by domain and in all, and which domains were read. */
  datatype Window = Window(gpu: real, gpuCounted: bool, pkg: real, dram: real, raplRead: bool, dramRead: bool,
                           energy: real, counted: seq<Source>, duration: real)

  function Saturating(a: nat, b: nat): nat { if a >= b then a - b else 0 }

  /** One domain's draw between two readings: where the counter went down it wrapped, and the range is
      added back. */
  function DomainDelta(d: Domain, s: nat, e: nat): nat {
    if e >= s then e - s else Saturating(d.maxRange, s) + e
  }

  function At(snapshot: seq<Option<nat>>, i: nat): Option<nat> {
    if i < |snapshot| then snapshot[i] else None
  }

  /** What domain `i` adds to its kind; a domain that could not be read adds nothing. */
  function DomainJ(d: Domain, s: Option<nat>, e: Option<nat>, kind: Kind): real {
    if d.kind == kind && s.Some? && e.Some? then DomainDelta(d, s.value, e.value) as real / 1000000.0 else 0.0
  }

  function RaplJ(domains: seq<Domain>, start: seq<Option<nat>>, end: seq<Option<nat>>, kind: Kind, n: nat): real
    requires n <= |domains|
  {
    if n == 0 then 0.0
    else RaplJ(domains, start, end, kind, n - 1) + DomainJ(domains[n - 1], At(start, n - 1), At(end, n - 1), kind)
  }

  method RaplDelta(domains: seq<Domain>, start: seq<Option<nat>>, end: seq<Option<nat>>) returns (pkg: real, dram: real)
    ensures pkg == RaplJ(domains, start, end, Package, |domains|)
    ensures dram == RaplJ(domains, start, end, Dram, |domains|)
  {
    pkg, dram := 0.0, 0.0;
    for i := 0 to |domains|
      invariant pkg == RaplJ(domains, start, end, Package, i)
      invariant dram == RaplJ(domains, start, end, Dram, i)
    {
      var s, e := At(start, i), At(end, i);
      if s.Some? && e.Some? {
        var j := DomainDelta(domains[i], s.value, e.value) as real / 1000000.0;
        match domains[i].kind
        case Package => pkg := pkg + j;
        case Dram => dram := dram + j;
      }
    }
  }

  function Max(a: real, b: real): real { if a >= b then a else b }

  /** The machine's domains, and whether their counters may be read. */
  datatype Machine = Machine(domains: seq<Domain>, readable: bool)
  {
    predicate KindRead(kind: Kind) {
      readable && exists i :: 0 <= i < |domains| && domains[i].kind == kind
    }

    predicate RaplRead() { KindRead(Package) }
  }

  function Counted(gpu: bool, pkg: bool, dram: bool): seq<Source> {
    (if gpu then [FromGpu] else []) + (if pkg then [FromPkg] else []) + if dram then [FromDram] else []
  }

  function LapOf(m: Machine, from: Reading, to: Reading): Window {
    var counted := from.gpu.Some? && to.gpu.Some?;
    var gpu := if counted then Max(to.gpu.value - from.gpu.value, 0.0) else 0.0;
    var pkg := RaplJ(m.domains, from.rapl, to.rapl, Package, |m.domains|);
    var dram := RaplJ(m.domains, from.rapl, to.rapl, Dram, |m.domains|);
    Window(gpu, counted, pkg, dram, m.RaplRead(), m.KindRead(Dram), gpu + pkg + dram,
           Counted(counted, m.RaplRead(), m.KindRead(Dram)), Max(to.now - from.now, 0.0))
  }

  class Meter {
    const machine: Machine
    var t0: real
    var raplStart: seq<Option<nat>>
    var gpuStart: Option<real>

    ghost function Last(): Reading
      reads this
    {
      Reading(gpuStart, raplStart, t0)
    }

    constructor (m: Machine, now: Reading)
      ensures machine == m && Last() == now
    {
      machine, t0, raplStart, gpuStart := m, now.now, now.rapl, now.gpu;
    }

    /** What was drawn since the last lap; the next one starts at this reading. */
    method Lap(now: Reading) returns (w: Window)
      modifies this
      ensures w == LapOf(machine, old(Last()), now) && Last() == now
    {
      var duration := Max(now.now - t0, 0.0);
      var pkg, dram := RaplDelta(machine.domains, raplStart, now.rapl);
      var start := gpuStart;
      gpuStart, raplStart, t0 := now.gpu, now.rapl, now.now;
      var counted := start.Some? && now.gpu.Some?;
      var gpu := if counted then Max(now.gpu.value - start.value, 0.0) else 0.0;
      var pkgRead, dramRead := machine.RaplRead(), machine.KindRead(Dram);
      var sources := [];
      if counted {
        sources := sources + [FromGpu];
      }
      if pkgRead {
        sources := sources + [FromPkg];
      }
      if dramRead {
        sources := sources + [FromDram];
      }
      w := Window(gpu, counted, pkg, dram, pkgRead, dramRead, gpu + pkg + dram, sources, duration);
    }
  }

  /** What a window says of itself: nothing in it is negative, its parts make its total, and it names a
      source exactly if that was read. */
  lemma WindowIsSound(m: Machine, from: Reading, to: Reading)
    ensures
      var w := LapOf(m, from, to);
      && w.gpu >= 0.0 && w.pkg >= 0.0 && w.dram >= 0.0 && w.duration >= 0.0 && w.energy == w.gpu + w.pkg + w.dram
      && (FromGpu in w.counted <==> from.gpu.Some? && to.gpu.Some?)
      && (FromPkg in w.counted <==> m.readable && exists d :: d in m.domains && d.kind == Package)
      && (FromDram in w.counted <==> m.readable && exists d :: d in m.domains && d.kind == Dram)
      && (w.raplRead <==> FromPkg in w.counted) && (w.dramRead <==> FromDram in w.counted)
  {
    NotNegative(m.domains, from.rapl, to.rapl, Package, |m.domains|);
    NotNegative(m.domains, from.rapl, to.rapl, Dram, |m.domains|);
    KindReadIs(m, Package);
    KindReadIs(m, Dram);
  }

  lemma {:induction false} NotNegative(domains: seq<Domain>, start: seq<Option<nat>>, end: seq<Option<nat>>, kind: Kind, n: nat)
    requires n <= |domains|
    ensures RaplJ(domains, start, end, kind, n) >= 0.0
  {
    if n > 0 {
      NotNegative(domains, start, end, kind, n - 1);
    }
  }

  lemma KindReadIs(m: Machine, kind: Kind)
    ensures m.KindRead(kind) <==> m.readable && exists d :: d in m.domains && d.kind == kind
  {
    if d :| d in m.domains && d.kind == kind {
      var i :| 0 <= i < |m.domains| && m.domains[i] == d;
    }
    if m.KindRead(kind) {
      var i :| 0 <= i < |m.domains| && m.domains[i].kind == kind;
      assert m.domains[i] in m.domains;
    }
  }

  /** A reading above the range is no start to wrap from: only what was counted since counts. */
  lemma StaleStart(d: Domain, s: nat, e: nat)
    requires e < s && d.maxRange <= s
    ensures DomainDelta(d, s, e) == e
  {}

  // ----- What the counters say of what was drawn -----

  /** A counter that has counted `total` shows it modulo its range. */
  function Shown(d: Domain, total: nat): nat
    requires d.maxRange > 0
  {
    total % d.maxRange
  }

  lemma ModOfSum(total: nat, draw: nat, range: nat)
    requires range > 0 && draw < range
    ensures (total + draw) % range == if total % range + draw < range then total % range + draw else total % range + draw - range
  {
    var q, s := total / range, total % range;
    if s + draw < range {
      QuotRemIs(total + draw, range, q, s + draw);
    } else {
      assert range * (q + 1) == range * q + range;
      QuotRemIs(total + draw, range, q + 1, s + draw - range);
    }
  }

  /** A lap is measured exactly if and only if it draws less than the counter's range. */
  lemma LapIsExactIff(d: Domain, total: nat, draw: nat)
    requires d.maxRange > 0
    ensures DomainDelta(d, Shown(d, total), Shown(d, total + draw)) == draw <==> draw < d.maxRange
  {
    if draw < d.maxRange {
      ModOfSum(total, draw, d.maxRange);
    }
  }

  /** The machine's true state: what the GPU and each domain have drawn in all, and the time. */
  datatype Truth = Truth(gpu: real, rapl: seq<nat>, now: real)

  predicate Ranged(m: Machine) {
    forall i | 0 <= i < |m.domains| :: m.domains[i].maxRange > 0
  }

  /** Every counter can be read. */
  function ReadingOf(m: Machine, t: Truth): Reading
    requires Ranged(m) && |t.rapl| == |m.domains|
  {
    Reading(Some(t.gpu), seq(|t.rapl|, i requires 0 <= i < |t.rapl| => Some(Shown(m.domains[i], t.rapl[i]))), t.now)
  }

  /** No domain draws its whole range in a lap. */
  predicate WithinRange(m: Machine, s: Truth, t: Truth)
    requires |s.rapl| == |m.domains|
  {
    && |t.rapl| == |m.domains|
    && forall i | 0 <= i < |m.domains| :: s.rapl[i] <= t.rapl[i] < s.rapl[i] + m.domains[i].maxRange
  }

  /** Nor does it; energy is only ever drawn, and the clock runs on. */
  predicate Follows(m: Machine, s: Truth, t: Truth)
    requires |s.rapl| == |m.domains|
  {
    s.gpu <= t.gpu && s.now <= t.now && WithinRange(m, s, t)
  }

  /** The joules the domains of a kind have drawn in all. */
  function DrawnJ(m: Machine, t: Truth, kind: Kind, n: nat): real
    requires n <= |m.domains| == |t.rapl|
  {
    if n == 0 then 0.0
    else DrawnJ(m, t, kind, n - 1) + if m.domains[n - 1].kind == kind then t.rapl[n - 1] as real / 1000000.0 else 0.0
  }

  lemma {:induction false} RaplIsDrawn(m: Machine, s: Truth, t: Truth, kind: Kind, n: nat)
    requires Ranged(m) && n <= |m.domains| == |s.rapl| && WithinRange(m, s, t)
    ensures RaplJ(m.domains, ReadingOf(m, s).rapl, ReadingOf(m, t).rapl, kind, n) == DrawnJ(m, t, kind, n) - DrawnJ(m, s, kind, n)
  {
    if n > 0 {
      var i := n - 1;
      RaplIsDrawn(m, s, t, kind, i);
      LapIsExactIff(m.domains[i], s.rapl[i], t.rapl[i] - s.rapl[i]);
    }
  }

  function CpuJ(m: Machine, t: Truth): real
    requires |t.rapl| == |m.domains|
  {
    DrawnJ(m, t, Package, |m.domains|) + DrawnJ(m, t, Dram, |m.domains|)
  }

  /** With every counter read, a lap's window is what was drawn. */
  lemma LapIsDrawn(m: Machine, s: Truth, t: Truth)
    requires Ranged(m) && |s.rapl| == |m.domains| && Follows(m, s, t)
    ensures
      var w := LapOf(m, ReadingOf(m, s), ReadingOf(m, t));
      && w.gpuCounted && w.gpu == t.gpu - s.gpu && w.pkg + w.dram == CpuJ(m, t) - CpuJ(m, s)
      && w.energy == (t.gpu - s.gpu) + (CpuJ(m, t) - CpuJ(m, s)) && w.duration == t.now - s.now
  {
    RaplIsDrawn(m, s, t, Package, |m.domains|);
    RaplIsDrawn(m, s, t, Dram, |m.domains|);
  }

  /** The laps between readings at these moments. */
  function Laps(m: Machine, truths: seq<Truth>): (real, real)
    requires Ranged(m) && truths != [] && forall i | 0 <= i < |truths| :: |truths[i].rapl| == |m.domains|
    decreases |truths|
  {
    if |truths| == 1 then (0.0, 0.0)
    else
      var w, rest := LapOf(m, ReadingOf(m, truths[0]), ReadingOf(m, truths[1])), Laps(m, truths[1..]);
      (w.gpu + rest.0, w.pkg + w.dram + rest.1)
  }

  /** Laps add up, over any number of wraps: first to last, they are what was drawn. */
  lemma {:induction false} LapsTelescope(m: Machine, truths: seq<Truth>)
    requires Ranged(m) && truths != [] && forall i | 0 <= i < |truths| :: |truths[i].rapl| == |m.domains|
    requires forall i | 0 < i < |truths| :: Follows(m, truths[i - 1], truths[i])
    ensures Laps(m, truths) == (truths[|truths| - 1].gpu - truths[0].gpu, CpuJ(m, truths[|truths| - 1]) - CpuJ(m, truths[0]))
    decreases |truths|
  {
    if |truths| > 1 {
      var rest := truths[1..];
      assert forall i | 0 < i < |rest| :: rest[i - 1] == truths[i] && rest[i] == truths[i + 1];
      assert Follows(m, truths[0], truths[1]);
      LapIsDrawn(m, truths[0], truths[1]);
      LapsTelescope(m, rest);
    }
  }
}

/**
 The fold of a threadblock's partial sums: groups of warps hold partial sums of the same output
 elements and meet through shared memory in a logarithmic number of rounds. Every lane of every group
 takes part with every float it holds; floats are `real`.
 */
module BlockReduce {
  import opened DivMod

  /** The sum of `s[lo..hi]`. */
  ghost function Sum(s: seq<real>, lo: nat, hi: nat): real
    requires lo <= hi <= |s|
  {
    if lo == hi then 0.0 else Sum(s, lo, hi - 1) + s[hi - 1]
  }

  ghost predicate PowerOfTwo(n: nat) {
    n == 1 || (n > 1 && n % 2 == 0 && PowerOfTwo(n / 2))
  }

  lemma HalfOf(n: nat)
    requires PowerOfTwo(n) && n > 1
    ensures PowerOfTwo(n / 2) && 2 * (n / 2) == n && n / 2 > 0
  {}

  lemma {:induction false} SumSplit(s: seq<real>, lo: nat, mid: nat, hi: nat)
    requires lo <= mid <= hi <= |s|
    ensures Sum(s, lo, hi) == Sum(s, lo, mid) + Sum(s, mid, hi)
  {
    if mid < hi {
      SumSplit(s, lo, mid, hi - 1);
    }
  }

  /** One round's sums, slot by slot: what was already in both halves of shared memory, and what the
      groups that write hold themselves. */
  lemma {:induction false} RoundSum(now: seq<real>, sh: seq<real>, acc: seq<real>, h: nat, n: nat)
    requires n <= h <= |now| && 2 * h <= |sh| && 2 * h <= |acc|
    requires forall j | 0 <= j < h :: now[j] == acc[j + h] + sh[j + h] + sh[j]
    ensures Sum(now, 0, n) == Sum(acc, h, h + n) + Sum(sh, h, h + n) + Sum(sh, 0, n)
  {
    if n > 0 {
      RoundSum(now, sh, acc, h, n - 1);
    }
  }

  lemma {:induction false} FirstSum(now: seq<real>, acc: seq<real>, h: nat, n: nat)
    requires n <= h <= |now| && 2 * h <= |acc|
    requires forall j | 0 <= j < h :: now[j] == acc[j + h]
    ensures Sum(now, 0, n) == Sum(acc, h, h + n)
  {
    if n > 0 {
      FirstSum(now, acc, h, n - 1);
    }
  }

  lemma SumOne(s: seq<real>)
    requires |s| > 0
    ensures Sum(s, 0, 1) == s[0]
  {
    assert Sum(s, 0, 0) == 0.0;
  }

  /** Each round halves the slots and doubles what they stand for. */
  lemma RoundKeeps(all: seq<real>, before: seq<real>, now: seq<real>, h: nat)
    requires h <= |now| && 2 * h <= |before| && 2 * h <= |all|
    requires Sum(before, 0, 2 * h) == Sum(all, 2 * h, |all|)
    requires forall j | 0 <= j < h :: now[j] == all[j + h] + before[j + h] + before[j]
    ensures Sum(now, 0, h) == Sum(all, h, |all|)
  {
    RoundSum(now, before, all, h, h);
    SumSplit(before, 0, h, 2 * h);
    SumSplit(all, h, 2 * h, |all|);
  }

  // ----- Shared memory -----

  /** A float within a group's part of shared memory: of accumulator `j`, of one lane, the `f`-th of its
      four. There are `d` lanes to a group and eight accumulators to a lane. */
  function Cell(d: nat, j: nat, lane: nat, f: nat): nat { 4 * (d * j + lane) + f }

  /** All that are walked, `step` accumulators at a time. */
  function Cells(d: nat, step: nat): set<nat>
    requires step > 0
  {
    set j: nat, lane: nat, f: nat | j < 8 && j % step == 0 && lane < d && f < 4 :: Cell(d, j, lane, f)
  }

  lemma LanesDiffer(d: nat, j: nat, lane: nat, j': nat, lane': nat)
    requires lane < d && lane' < d && d * j + lane == d * j' + lane'
    ensures j == j' && lane == lane'
  {
    QuotRemIs(d * j + lane, d, j, lane);
    QuotRemIs(d * j + lane, d, j', lane');
  }

  /** No two floats of a group have the same place. */
  lemma CellsDiffer(d: nat, j: nat, lane: nat, f: nat, j': nat, lane': nat, f': nat)
    requires lane < d && lane' < d && f < 4 && f' < 4 && Cell(d, j, lane, f) == Cell(d, j', lane', f')
    ensures j == j' && lane == lane' && f == f'
  {
    LanesDiffer(d, j, lane, j', lane');
  }

  lemma CellFits(d: nat, j: nat, lane: nat, f: nat)
    requires j < 8 && lane < d && f < 4
    ensures Cell(d, j, lane, f) < 32 * d
  {
    MulMono(d, j + 1, 8);
    assert d * (j + 1) == d * j + d;
  }

  lemma CellsFit(d: nat, step: nat)
    requires step > 0
    ensures forall c | c in Cells(d, step) :: c < 32 * d
  {
    forall j: nat, lane: nat, f: nat | j < 8 && lane < d && f < 4
      ensures Cell(d, j, lane, f) < 32 * d
    {
      CellFits(d, j, lane, f);
    }
  }

  lemma IsCell(d: nat, step: nat, j: nat, lane: nat, f: nat)
    requires step > 0 && j < 8 && j % step == 0 && lane < d && f < 4
    ensures Cell(d, j, lane, f) in Cells(d, step)
  {}

  lemma AreCells(d: nat, step: nat)
    requires step > 0
    ensures forall j: nat, lane: nat, f: nat | j < 8 && j % step == 0 && lane < d && f < 4 ::
              Cell(d, j, lane, f) in Cells(d, step) && Cell(d, j, lane, f) < 32 * d
  {
    forall j: nat, lane: nat, f: nat | j < 8 && j % step == 0 && lane < d && f < 4
      ensures Cell(d, j, lane, f) in Cells(d, step) && Cell(d, j, lane, f) < 32 * d
    {
      IsCell(d, step, j, lane, f);
      CellFits(d, j, lane, f);
    }
  }

  /** Shared memory is one array, `stride` floats to a group: where a group's cell lies in it. */
  function Address(stride: nat, group: nat, cell: nat): nat { stride * group + cell }

  /** The address a thread works out is that of its group and its cell. */
  lemma AddressIs(d: nat, group: nat, j: nat, lane: nat, f: nat)
    ensures
      var redShStride, redShDelta := d * 4 * 2, d;
      var redShRd := redShStride * group + lane;
      4 * (redShDelta * j + redShRd) + f == Address(32 * d, group, Cell(d, j, lane, f))
  {
    assert 4 * (d * 8 * group) == 32 * d * group;
  }

  /** The groups that write in the round in which `live` are to remain. */
  predicate Writes(i: nat, live: nat) { live <= i < 2 * live }

  lemma AddressesDiffer(stride: nat, i: nat, c: nat, j: nat, c': nat)
    requires c < stride && c' < stride && Address(stride, i, c) == Address(stride, j, c')
    ensures i == j && c == c'
  {
    LanesDiffer(stride, i, c, j, c');
  }

  /** In one round, no address that a float is read from or written to for one group's cell is written to
      for another's. */
  lemma NoSharedSlots(stride: nat, live: nat, i: nat, c: nat, j: nat, c': nat)
    requires Writes(i, live) && Writes(j, live) && c < stride && c' < stride && (i != j || c != c')
    ensures {Address(stride, i, c), Address(stride, i - live, c)} !! {Address(stride, j - live, c')}
  {
    if Address(stride, i, c) == Address(stride, j - live, c') {
      AddressesDiffer(stride, i, c, j - live, c');
    }
    if Address(stride, i - live, c) == Address(stride, j - live, c') {
      AddressesDiffer(stride, i - live, c, j - live, c');
    }
  }

  // ----- The rounds -----

  /** What the groups have of one cell. */
  ghost function Of(a: array2<real>, c: nat): (s: seq<real>)
    requires c < a.Length1
    reads a
    ensures |s| == a.Length0 && forall i | 0 <= i < |s| :: s[i] == a[i, c]
  {
    seq(a.Length0, i requires 0 <= i < a.Length0 reads a => a[i, c])
  }

  /** One group writes one cell: what it holds and, but for the first round, what both halves left. */
  method Meet(acc: array2<real>, sh: array2<real>, idx: nat, c: nat, live: nat, redOff: nat)
    requires acc != sh && Writes(idx, live) && live <= redOff && idx < acc.Length0 && c < acc.Length1 && c < sh.Length1
    requires idx - live < sh.Length0 && (live < redOff ==> idx < sh.Length0)
    modifies acc, sh
    ensures sh[idx - live, c] ==
            old(acc[idx, c]) + (if live < redOff then old(sh[idx, c]) + old(sh[idx - live, c]) else 0.0)
    ensures forall i, k | 0 <= i < acc.Length0 && 0 <= k < acc.Length1 && !(i == idx && k == c) :: acc[i, k] == old(acc[i, k])
    ensures forall i, k | 0 <= i < sh.Length0 && 0 <= k < sh.Length1 && !(i == idx - live && k == c) :: sh[i, k] == old(sh[i, k])
  {
    if live < redOff {
      acc[idx, c] := acc[idx, c] + (sh[idx, c] + sh[idx - live, c]);
    }
    sh[idx - live, c] := acc[idx, c];
  }

  /** One round: the upper half of the live groups add up what they find and leave it for the lower
      half, cell by cell. Groups and cells go in any order. */
  method Round(acc: array2<real>, sh: array2<real>, live: nat, redOff: nat, cells: set<nat>)
    requires acc != sh && 0 < live <= redOff && 2 * redOff == acc.Length0 && redOff <= sh.Length0
    requires live < redOff ==> 2 * live <= redOff
    requires forall c | c in cells :: c < acc.Length1 && c < sh.Length1
    modifies acc, sh
    ensures forall c, i: nat | c in cells && i < live ::
              sh[i, c] == old(acc[i + live, c]) + (if live < redOff then old(sh[i + live, c]) + old(sh[i, c]) else 0.0)
    ensures forall i, c | 0 <= i < acc.Length0 && 0 <= c < acc.Length1 && !(live <= i < 2 * live) :: acc[i, c] == old(acc[i, c])
  {
    var todo := set i: nat, c: nat | i < 2 * live && Writes(i, live) && c in cells :: (i, c);
    while todo != {}
      invariant forall i, c | (i, c) in todo ::
                  Writes(i, live) && c in cells && acc[i, c] == old(acc[i, c]) && sh[i - live, c] == old(sh[i - live, c])
      invariant forall c, i: nat | c in cells && i < live && (i + live, c) !in todo ::
                  sh[i, c] == old(acc[i + live, c]) + (if live < redOff then old(sh[i + live, c]) + old(sh[i, c]) else 0.0)
      invariant forall c, i | c in cells && live <= i < sh.Length0 :: sh[i, c] == old(sh[i, c])
      invariant forall i, c | 0 <= i < acc.Length0 && 0 <= c < acc.Length1 && !(live <= i < 2 * live) ::
                  acc[i, c] == old(acc[i, c])
      decreases todo
    {
      var idx, c :| (idx, c) in todo;
      Meet(acc, sh, idx, c, live, redOff);
      todo := todo - {(idx, c)};
    }
  }

  /** What the groups held of each cell at the start. */
  ghost function Start(acc: array2<real>, cells: set<nat>): (all: map<nat, seq<real>>)
    requires forall c | c in cells :: c < acc.Length1
    reads acc
  {
    map c | c in cells :: Of(acc, c)
  }

  /** The first `live` groups still hold what they did, and what they find in shared memory stands for all
      the others. */
  ghost predicate Halved(acc: array2<real>, sh: array2<real>, all: map<nat, seq<real>>, live: nat)
    reads acc, sh
  {
    && 0 < live <= sh.Length0 && live < acc.Length0
    && (forall c | c in all :: c < acc.Length1 && c < sh.Length1 && |all[c]| == acc.Length0)
    && (forall c, i: nat | c in all && i < live :: acc[i, c] == all[c][i])
    && (forall c | c in all :: Sum(Of(sh, c), 0, live) == Sum(all[c], live, |all[c]|))
  }

  method FirstRound(acc: array2<real>, sh: array2<real>, redOff: nat, cells: set<nat>)
    requires acc != sh && 0 < redOff <= sh.Length0 && 2 * redOff == acc.Length0
    requires forall c | c in cells :: c < acc.Length1 && c < sh.Length1
    modifies acc, sh
    ensures Halved(acc, sh, old(Start(acc, cells)), redOff)
  {
    ghost var all := Start(acc, cells);
    Round(acc, sh, redOff, redOff, cells);
    forall c | c in cells
      ensures Sum(Of(sh, c), 0, redOff) == Sum(all[c], redOff, |all[c]|)
    {
      FirstSum(Of(sh, c), all[c], redOff, redOff);
    }
  }

  method NextRound(acc: array2<real>, sh: array2<real>, live: nat, redOff: nat, cells: set<nat>, ghost all: map<nat, seq<real>>)
    requires acc != sh && 0 < live && 2 * live <= redOff <= sh.Length0 && 2 * redOff == acc.Length0
    requires all.Keys == cells && Halved(acc, sh, all, 2 * live)
    modifies acc, sh
    ensures Halved(acc, sh, all, live)
  {
    Round(acc, sh, live, redOff, cells);
    forall c | c in cells
      ensures Sum(Of(sh, c), 0, live) == Sum(all[c], live, |all[c]|)
    {
      RoundKeeps(all[c], old(Of(sh, c)), Of(sh, c), live);
    }
  }

  /** With a power-of-two number of groups, group 0 ends up with the sum of all of them, for every cell.
      Whatever stood in shared memory before does not matter. */
  method ReduceBlock(acc: array2<real>, sh: array2<real>, cells: set<nat>)
    requires acc != sh && PowerOfTwo(acc.Length0) && acc.Length0 <= 2 * sh.Length0
    requires forall c | c in cells :: c < acc.Length1 && c < sh.Length1
    modifies acc, sh
    ensures forall c | c in cells :: acc[0, c] == Sum(old(Of(acc, c)), 0, acc.Length0)
  {
    var redOff := acc.Length0 / 2;
    ghost var all := Start(acc, cells);
    if redOff < 1 {
      OneGroup(acc, cells);
      return;
    }
    HalfOf(acc.Length0);
    var live := redOff;
    FirstRound(acc, sh, redOff, cells);
    while live > 1
      invariant 0 < live <= redOff && PowerOfTwo(live) && Halved(acc, sh, all, live)
    {
      HalfOf(live);
      live := live / 2;
      NextRound(acc, sh, live, redOff, cells, all);
    }
    TakeUp(acc, sh, cells, all);
  }

  lemma OneGroup(acc: array2<real>, cells: set<nat>)
    requires acc.Length0 == 1 && forall c | c in cells :: c < acc.Length1
    ensures forall c: nat | c in cells :: acc[0, c] == Sum(Of(acc, c), 0, 1)
  {
    forall c: nat | c in cells
      ensures acc[0, c] == Sum(Of(acc, c), 0, 1)
    {
      SumOne(Of(acc, c));
    }
  }

  lemma TotalIs(held: seq<real>, found: seq<real>)
    requires |held| > 1 && |found| > 0 && Sum(found, 0, 1) == Sum(held, 1, |held|)
    ensures held[0] + found[0] == Sum(held, 0, |held|)
  {
    SumOne(found);
    SumOne(held);
    SumSplit(held, 0, 1, |held|);
  }

  /** The last round leaves the total in shared memory for group 0 to take up. */
  method TakeUp(acc: array2<real>, sh: array2<real>, cells: set<nat>, ghost all: map<nat, seq<real>>)
    requires acc != sh && all.Keys == cells && Halved(acc, sh, all, 1)
    modifies acc
    ensures forall c | c in cells :: acc[0, c] == Sum(all[c], 0, |all[c]|)
  {
    var todo := cells;
    while todo != {}
      invariant todo <= cells
      invariant forall c | c in todo :: acc[0, c] == all[c][0]
      invariant forall c | c in cells && c !in todo :: acc[0, c] == Sum(all[c], 0, |all[c]|)
      decreases todo
    {
      var c :| c in todo;
      TotalIs(all[c], Of(sh, c));
      acc[0, c] := acc[0, c] + sh[0, c];
      todo := todo - {c};
    }
  }

  /** Block of rows by block of rows, through the same shared memory. `acc[m]` is what the groups hold of
      block `m`, a row for each group. */
  method ThreadBlockReduce(acc: seq<array2<real>>, sh: array2<real>, groups: nat, d: nat, step: nat)
    requires PowerOfTwo(groups) && groups <= 2 * sh.Length0 && sh.Length1 == 32 * d && step > 0
    requires forall m | 0 <= m < |acc| :: acc[m] != sh && acc[m].Length0 == groups && acc[m].Length1 == 32 * d
    requires forall l, m | 0 <= l < m < |acc| :: acc[l] != acc[m]
    modifies set m | 0 <= m < |acc| :: acc[m]
    modifies sh
    ensures forall m, j: nat, lane: nat, f: nat | 0 <= m < |acc| && j < 8 && j % step == 0 && lane < d && f < 4 ::
              Cell(d, j, lane, f) < 32 * d &&
              acc[m][0, Cell(d, j, lane, f)] == Sum(old(Of(acc[m], Cell(d, j, lane, f))), 0, groups)
  {
    var cells := Cells(d, step);
    CellsFit(d, step);
    for m := 0 to |acc|
      invariant forall l, c | 0 <= l < m && c in cells :: acc[l][0, c] == Sum(old(Of(acc[l], c)), 0, groups)
      invariant forall l | m <= l < |acc| :: unchanged(acc[l])
    {
      ReduceBlock(acc[m], sh, cells);
    }
    AreCells(d, step);
  }
}

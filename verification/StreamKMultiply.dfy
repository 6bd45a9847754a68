/**
 The pipeline over the slices a block is given, and what the hand-over adds up: whatever the
 interleaving, the sum stored for an output tile takes in the operands of the plain loop over the
 tile's whole k row, each once and with its own scale group.
 */
module StreamKMultiply {
  import opened DivMod
  import Locks = StreamKLocks
  import opened StreamKPartition
  import opened StreamKPipeline
  import Kernel = StreamKKernel

  /** The kernel's stages divide k as the launch says. */
  ghost predicate Fits(problem: Problem, threadKBlocks: nat, wrIters: nat) {
    && problem.Valid() && ValidShape(threadKBlocks, wrIters)
    && problem.tilesPerGroup == TilesPerGroup(threadKBlocks)
  }

  /** What the plain loop multiplies over a slice. */
  ghost function PlainOver(v: Slice, g: nat, wrIters: nat): seq<Operand>
    requires v.row >= 0 && v.iters >= 0
  {
    Plain(v.row, g, wrIters, v.iters, 0)
  }

  /** What a block accumulated over its first slices is what the plain loop does over each. */
  ghost predicate ArePlain(p: Split, b: nat, g: nat, wrIters: nat, sums: seq<seq<Operand>>)
    requires p.Valid()
  {
    && |sums| <= VisitCount(p, b)
    && forall i | 0 <= i < |sums| :: sums[i] == PlainOver(Visit(p, b, i), g, wrIters)
  }

  lemma OneMoreIsPlain(p: Split, b: nat, g: nat, wrIters: nat, sums: seq<seq<Operand>>, acc: seq<Operand>)
    requires p.Valid() && ArePlain(p, b, g, wrIters, sums) && |sums| < VisitCount(p, b)
    requires acc == PlainOver(Visit(p, b, |sums|), g, wrIters)
    ensures ArePlain(p, b, g, wrIters, sums + [acc])
  {}

  /** One block's whole work: slice after slice through the same pipeline, which keeps nothing of one
      for the next. */
  method MultiplyBlock(problem: Problem, p: Split, b: nat, threadKBlocks: nat, wrIters: nat)
    returns (sums: seq<seq<Operand>>)
    requires Fits(problem, threadKBlocks, wrIters) && p == SplitOf(problem) && p.Valid() && b < p.grid
    ensures |sums| == VisitCount(p, b) && ArePlain(p, b, problem.tilesPerGroup, wrIters, sums)
  {
    var block := new Block(p, b);
    var pipeline := new Pipeline(threadKBlocks, wrIters);
    sums := [];
    while block.sliceIters != 0
      invariant fresh(block) && fresh(pipeline) && block.p == p && block.b == b
      invariant pipeline.Wired() && pipeline.mem.batches == []
      invariant pipeline.g == problem.tilesPerGroup && pipeline.wrIters == wrIters
      invariant ArePlain(p, b, problem.tilesPerGroup, wrIters, sums) && block.At(|sums|)
      decreases VisitCount(p, b) - |sums|
    {
      ghost var n := |sums|;
      SlicesStartAtAGroup(problem, b, n);
      pipeline.MultiplySlice(block.sliceRow, block.sliceIters);
      OneMoreIsPlain(p, b, pipeline.g, wrIters, sums, pipeline.acc);
      sums := sums + [pipeline.acc];
      block.NextSlice(n);
    }
  }

  // ----- What a stored sum takes in -----

  /** The operands a sum takes in, in the order in which its parts stand in it. */
  ghost function Taken(p: Split, g: nat, wrIters: nat, f: Locks.Frag): seq<Operand>
    requires p.Valid()
  {
    match f
    case Nothing => []
    case WholeTile(b, round) => PlainOver(OwnSlice(p, b, round), g, wrIters)
    case Part(b, t) => if Meets(p, b, t) then PlainOver(SharedSlice(p, b, t), g, wrIters) else []
    case Add(mine, theirs) => Taken(p, g, wrIters, mine) + Taken(p, g, wrIters, theirs)
  }

  /** The plain loop over two runs of k, one after the other, is the plain loop over both. */
  lemma {:induction false} PlainJoins(row: nat, g: nat, wrIters: nat, n: nat, t: nat, k: nat)
    ensures Plain(row, g, wrIters, n, 0) + Plain(row + n, g, wrIters, t, k) == Plain(row, g, wrIters, n + t, k)
    decreases t, k
  {
    if k > 0 {
      PlainJoins(row, g, wrIters, n, t, k - 1);
    } else if t > 0 {
      PlainJoins(row, g, wrIters, n, t - 1, wrIters);
    } else {
      assert Plain(row + n, g, wrIters, 0, 0) == [];
    }
  }

  /** The pieces of a shared tile lie end to end: the first starts at its top, the last ends at its
      bottom, and each ends where the next one starts. */
  lemma PiecesMeet(p: Split, t: nat, b: nat)
    requires p.Valid() && FirstBlock(p, t) <= b <= LastBlock(p, t)
    ensures Meets(p, b, t)
    ensures b == FirstBlock(p, t) ==> RowFrom(p, b, t) == 0
    ensures b == LastBlock(p, t) ==> RowTo(p, b, t) == p.kTiles
    ensures b < LastBlock(p, t) ==> RowTo(p, b, t) == RowFrom(p, b + 1, t)
  {
    MeetsRange(p, b, t);
    MeetsRange(p, b + 1, t);
    MeetsRange(p, FirstBlock(p, t), t);
    HeldBy(p, t, 0, FirstBlock(p, t));
    HeldBy(p, t, p.kTiles - 1, LastBlock(p, t));
    assert p.stripe * (b + 1) == p.stripe * b + p.stripe;
  }

  /** The hand-over's plan names the blocks of the split. */
  ghost predicate Names(p: Split, plan: Locks.Plan, t: nat)
    requires p.Valid()
  {
    plan.Valid() && t < plan.Shared() && plan.first[t] == FirstBlock(p, t) && plan.last[t] == LastBlock(p, t)
  }

  /** The first `k` parts of a tile, as the hand-over adds them, are the plain loop over the end of its
      k row. */
  lemma {:induction false} SumIsPlain(p: Split, plan: Locks.Plan, g: nat, wrIters: nat, t: nat, k: nat)
    requires p.Valid() && Names(p, plan, t) && 1 <= k <= plan.Count(t)
    ensures
      var from := RowFrom(p, LastBlock(p, t) - (k - 1), t);
      from <= p.kTiles && Taken(p, g, wrIters, Locks.Sum(plan, t, k)) == Plain(from, g, wrIters, p.kTiles - from, 0)
    decreases k
  {
    var b := LastBlock(p, t) - (k - 1);
    PiecesMeet(p, t, b);
    var v := SharedSlice(p, b, t);
    if k > 1 {
      SumIsPlain(p, plan, g, wrIters, t, k - 1);
      PlainJoins(v.row, g, wrIters, v.iters, p.kTiles - (v.row + v.iters), 0);
    }
  }

  lemma SharedIsPlain(p: Split, plan: Locks.Plan, g: nat, wrIters: nat, t: nat)
    requires p.Valid() && Names(p, plan, t)
    ensures Taken(p, g, wrIters, Locks.Sum(plan, t, plan.Count(t))) == Plain(0, g, wrIters, p.kTiles, 0)
  {
    PiecesMeet(p, t, FirstBlock(p, t));
    SumIsPlain(p, plan, g, wrIters, t, plan.Count(t));
  }

  lemma OwnIsPlain(p: Split, g: nat, wrIters: nat, b: nat, round: nat)
    requires p.Valid()
    ensures Taken(p, g, wrIters, Locks.WholeTile(b, round)) == Plain(0, g, wrIters, p.kTiles, 0)
  {}

  /** What a tile should hold takes in its whole k row, in order: every step of every k-block once, each
      with the scale and zero point of its own group. `PlainIs` says what that is, operand by operand. */
  lemma TotalIsPlain(p: Split, plan: Locks.Plan, g: nat, wrIters: nat, tile: nat)
    requires p.Valid() && plan.Valid() && plan.Shared() == p.shared && tile < p.tiles
    requires forall t: nat | t < p.shared :: Names(p, plan, t)
    ensures Taken(p, g, wrIters, Kernel.Total(p, plan, tile)) == Plain(0, g, wrIters, p.kTiles, 0)
  {
    if tile >= p.tiles - p.shared {
      SharedIsPlain(p, plan, g, wrIters, tile - (p.tiles - p.shared));
    } else {
      OwnIsPlain(p, g, wrIters, Rem(tile, p.grid), Quot(tile, p.grid));
    }
  }

  /** For every launch and every interleaving of its blocks: what is stored for an output tile is stored
      once, and takes in the operands of the plain loop over the tile's whole k row. */
  lemma LaunchIsPlain(problem: Problem, p: Split, plan: Locks.Plan, schedule: seq<nat>,
                      threadKBlocks: nat, wrIters: nat, tile: nat)
    requires Fits(problem, threadKBlocks, wrIters) && p == SplitOf(problem) && p.Valid() && p.Exact()
    requires plan == Kernel.PlanOf(p) && plan.Valid() && Locks.Runs(plan, Locks.Initial(plan), schedule)
    requires forall b: nat :: !Locks.Enabled(plan, Locks.After(plan, Locks.Initial(plan), schedule), b)
    requires tile < p.tiles
    ensures
      var stored := Kernel.Stored(p, Locks.After(plan, Locks.Initial(plan), schedule), tile);
      && |stored| == 1
      && Taken(p, problem.tilesPerGroup, wrIters, stored[0]) == Plain(0, problem.tilesPerGroup, wrIters, p.kTiles, 0)
  {
    Kernel.EveryLaunchFinishes(problem, p, plan, schedule);
    TotalIsPlain(p, plan, problem.tilesPerGroup, wrIters, tile);
  }
}

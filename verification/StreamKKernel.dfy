/**
 The split and the hand-over together: the blocks that `StreamKPartition` says share a tile are the
 ones that meet at its lock in `StreamKLocks`, so what is proved of every run of the hand-over holds
 of every launch of the kernel.
 */
module StreamKKernel {
  import opened DivMod
  import opened StreamKPartition
  import opened StreamKLocks

  function FirstBlocks(p: Split): seq<nat>
    requires p.Valid()
  {
    seq(p.shared, t requires 0 <= t => FirstBlock(p, t))
  }

  function LastBlocks(p: Split): seq<nat>
    requires p.Valid()
  {
    seq(p.shared, t requires 0 <= t => LastBlock(p, t))
  }

  function LockNumbers(p: Split): seq<nat>
    requires p.Valid()
  {
    seq(p.shared, t requires 0 <= t => LockOf(p, t))
  }

  /** The hand-over that a split leads to. */
  function PlanOf(p: Split): Plan
    requires p.Valid()
  {
    Plan(p.own, FirstBlocks(p), LastBlocks(p), LockNumbers(p),
         seq(p.grid, b requires 0 <= b => FirstTile(p, b)), seq(p.grid, b requires 0 <= b => EndTile(p, b)))
  }

  /** It is a sound one: sharers are who they seem to each other to be, and locks do not collide. */
  lemma PlanOfIsValid(p: Split)
    requires p.Valid() && p.Exact()
    ensures PlanOf(p).Valid()
  {
    var plan := PlanOf(p);
    forall t | 0 <= t < p.shared
      ensures plan.first[t] <= plan.last[t] < p.grid
      ensures plan.first[t] < plan.last[t] ==> plan.lock[t] < p.grid
    {
      MeetsRange(p, 0, t);
      HeldBy(p, t, p.kTiles - 1, 0);
      LockInGrid(p, t);
    }
    forall b, t | 0 <= b < p.grid && 0 <= t
      ensures plan.begin[b] <= t < plan.end[b] <==> t < p.shared && plan.first[t] <= b <= plan.last[t]
    {
      TileRange(p, b, t);
      MeetsRange(p, b, t);
    }
    forall t, u | 0 <= t < u < p.shared && plan.first[t] < plan.last[t] && plan.first[u] < plan.last[u]
      ensures plan.lock[t] != plan.lock[u]
    {
      LocksDiffer(p, t, u);
    }
  }

  lemma LockInGrid(p: Split, t: nat)
    requires p.Valid() && p.Exact() && t < p.shared
    ensures LockOf(p, t) < p.grid
  {
    HeldBy(p, t, p.kTiles - 1, 0);
  }

  /** What a block works out for a shared slice is what the hand-over uses: the tile, the number of
      sharers, its place among them and the lock. */
  lemma SlicesFollowPlan(p: Split, b: nat, i: nat)
    requires p.Valid() && p.Exact() && PlanOf(p).Valid() && b < p.grid
    ensures PlanOf(p).Slices(b) == VisitCount(p, b)
    ensures p.own <= i < VisitCount(p, b) ==>
              var t := PlanOf(p).TileAt(b, i);
              var v := Visit(p, b, i);
              && v.tile == t + (p.tiles - p.shared)
              && v.count == PlanOf(p).Count(t) && v.idx == PlanOf(p).Idx(b, t)
              && (v.count > 1 ==> v.lock == LockAt(PlanOf(p).lock[t]))
  {
    if p.own <= i < VisitCount(p, b) {
      VisitIsShared(p, b, i);
    }
  }

  /** Everything ever stored to output tile `g`, in order. */
  ghost function Stored(p: Split, s: State, g: nat): seq<Frag>
    requires p.Valid() && |s.whole| == p.grid && |s.out| == p.shared && g < p.tiles
  {
    if g < p.tiles - p.shared then OfRound(s.whole[Rem(g, p.grid)], Quot(g, p.grid))
    else s.out[g - (p.tiles - p.shared)]
  }

  /** What tile `g` should hold: the product of its only block, or the parts of its sharers, the last
      along k innermost. */
  ghost function Total(p: Split, plan: Plan, g: nat): Frag
    requires p.Valid() && plan.Valid() && plan.Shared() == p.shared && g < p.tiles
  {
    if g < p.tiles - p.shared then WholeTile(Rem(g, p.grid), Quot(g, p.grid))
    else Sum(plan, g - (p.tiles - p.shared), plan.Count(g - (p.tiles - p.shared)))
  }

  lemma StoredOnce(p: Split, plan: Plan, s: State, g: nat)
    requires p.Valid() && p.Exact() && plan.Valid() && plan.Shared() == p.shared && g < p.tiles
    requires |s.whole| == p.grid && |s.out| == p.shared
    requires forall t | 0 <= t < p.shared :: s.out[t] == [Sum(plan, t, plan.Count(t))]
    requires forall b | 0 <= b < p.grid :: s.whole[b] == OwnTiles(b, p.own)
    ensures Stored(p, s, g) == [Total(p, plan, g)]
  {
    if g < p.tiles - p.shared {
      CoveredOwn(p, g);
      OwnTilesOnce(Rem(g, p.grid), p.own, Quot(g, p.grid));
    }
  }

  /** For every launch and every interleaving of its blocks: the run ends, every output tile is
      stored exactly once, with a sum that does not depend on the interleaving, and the locks are as
      clean as the launch found them. */
  lemma EveryLaunchFinishes(problem: Problem, p: Split, plan: Plan, schedule: seq<nat>)
    requires problem.Valid() && p == SplitOf(problem) && p.Valid() && plan == PlanOf(p) && plan.Valid()
    requires Runs(plan, Initial(plan), schedule)
    requires forall b: nat :: !Enabled(plan, After(plan, Initial(plan), schedule), b)
    ensures
      var s := After(plan, Initial(plan), schedule);
      && |schedule| <= TotalLeft(plan, Initial(plan), p.grid)
      && (forall g: nat | g < p.tiles :: Stored(p, s, g) == [Total(p, plan, g)])
      && (forall l | 0 <= l < p.grid :: s.locks[l] == 0)
  {
    SplitIsExact(problem);
    EveryRunFinishes(plan, schedule);
    forall g: nat | g < p.tiles
      ensures Stored(p, After(plan, Initial(plan), schedule), g) == [Total(p, plan, g)]
    {
      StoredOnce(p, plan, After(plan, Initial(plan), schedule), g);
    }
  }

  /** The side conditions above hold of every launch. */
  lemma LaunchesAreSound(problem: Problem)
    requires problem.Valid()
    ensures SplitOf(problem).Valid() && SplitOf(problem).Exact() && PlanOf(SplitOf(problem)).Valid()
  {
    SplitIsExact(problem);
    PlanOfIsValid(SplitOf(problem));
  }
}

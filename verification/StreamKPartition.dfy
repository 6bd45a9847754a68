/**
 The stream-K split of the W4A16 kernel: which run of k-blocks of which output tile each
 threadblock takes, in which order the blocks that share a tile add into it, and through which
 lock. Every block works this out alone. The first half of the module says what the blocks
 should agree on, the class `Block` is the arithmetic each of them does, and the lemmas at the end
 say that the pieces fit together.
 */
module StreamKPartition {
  import opened DivMod

  /** One launch: `grid` blocks over `parallel * nTiles` output tiles of `kTiles` k-blocks each. */
  datatype Problem = Problem(grid: nat, parallel: nat, nTiles: nat, kTiles: nat, tilesPerGroup: nat)
  {
    /** Positive extents, and a tile's k is a whole number of scale groups. */
    ghost predicate Valid() {
      grid > 0 && parallel > 0 && nTiles > 0 && kTiles > 0 && tilesPerGroup > 0 &&
      kTiles % tilesPerGroup == 0
    }
  }

  /** The sizes every block derives from the launch: how many tiles there are, how many of them are
      cut along k, how many rounds of whole tiles each block takes, and the length of a stripe. */
  datatype Split = Split(grid: nat, nTiles: nat, kTiles: nat, tiles: nat, shared: nat, own: nat, stripe: nat)
  {
    ghost predicate Valid() {
      && grid > 0 && nTiles > 0 && kTiles > 0 && stripe > 0
      && 0 < shared <= tiles
      && (shared >= grid ==> stripe >= kTiles)
    }

    /** The whole tiles come out even, and the stripes reach the end of the shared ones. */
    ghost predicate Exact() {
      grid * own + shared == tiles && kTiles * shared <= stripe * grid
    }
  }

  function SharedTiles(tiles: nat, grid: nat): nat
    requires grid > 0
  {
    if tiles > grid then
      var left := tiles % grid;
      if left * 3 <= grid then left + grid else left
    else tiles
  }

  lemma SharedTilesLeaveRounds(tiles: nat, grid: nat)
    requires grid > 0 && tiles > 0
    ensures 0 < SharedTiles(tiles, grid) <= tiles
    ensures grid * ((tiles - SharedTiles(tiles, grid)) / grid) + SharedTiles(tiles, grid) == tiles
  {
    if tiles > grid {
      var q := tiles / grid;
      assert tiles == grid * q + tiles % grid;
      FloorAdjoint(tiles, grid, 1);
      if tiles % grid * 3 <= grid {
        assert grid * (q - 1) == grid * q - grid;
        FloorIs(tiles - SharedTiles(tiles, grid), grid, q - 1);
      } else {
        FloorIs(tiles - SharedTiles(tiles, grid), grid, q);
      }
    }
  }

  /** A stripe: an even share of the work, rounded up to a whole number of scale groups. */
  function Stripe(work: nat, grid: nat, tilesPerGroup: nat): nat
    requires grid > 0 && tilesPerGroup > 0
  {
    tilesPerGroup * DivCeil(DivCeil(work, grid), tilesPerGroup)
  }

  lemma StripesReach(work: nat, grid: nat, tilesPerGroup: nat)
    requires grid > 0 && tilesPerGroup > 0 && work > 0
    ensures Stripe(work, grid, tilesPerGroup) > 0
    ensures work <= Stripe(work, grid, tilesPerGroup) * grid
    ensures Stripe(work, grid, tilesPerGroup) % tilesPerGroup == 0
  {
    var each := DivCeil(work, grid);
    var groups := DivCeil(each, tilesPerGroup);
    CeilAdjoint(work, grid, each);
    CeilAdjoint(work, grid, 0);
    CeilAdjoint(each, tilesPerGroup, groups);
    MulMono(grid, each, Stripe(work, grid, tilesPerGroup));
    FloorIs(Stripe(work, grid, tilesPerGroup), tilesPerGroup, groups);
  }

  lemma LongStripes(kTiles: nat, shared: nat, grid: nat, tilesPerGroup: nat)
    requires grid > 0 && tilesPerGroup > 0 && kTiles > 0 && shared >= grid
    ensures Stripe(kTiles * shared, grid, tilesPerGroup) >= kTiles
  {
    var each := DivCeil(kTiles * shared, grid);
    assert kTiles * shared > grid * (kTiles - 1) by {
      MulMono(kTiles, grid, shared);
      assert grid * (kTiles - 1) == kTiles * grid - grid;
    }
    CeilAdjoint(kTiles * shared, grid, kTiles - 1);
    CeilAdjoint(each, tilesPerGroup, DivCeil(each, tilesPerGroup));
  }

  function SplitOf(p: Problem): Split
    requires p.Valid()
  {
    var tiles := p.parallel * p.nTiles;
    var shared := SharedTiles(tiles, p.grid);
    SplitSizes(p);
    Split(p.grid, p.nTiles, p.kTiles, tiles, shared, Quot(tiles - shared, p.grid),
          Stripe(p.kTiles * shared, p.grid, p.tilesPerGroup))
  }

  lemma SplitSizes(p: Problem)
    requires p.Valid()
    ensures p.parallel * p.nTiles > 0
    ensures SharedTiles(p.parallel * p.nTiles, p.grid) <= p.parallel * p.nTiles
    ensures p.kTiles * SharedTiles(p.parallel * p.nTiles, p.grid) >= 0
  {
    MulMono(p.parallel, 1, p.nTiles);
    SharedTilesLeaveRounds(p.parallel * p.nTiles, p.grid);
    MulMono(p.kTiles, 0, SharedTiles(p.parallel * p.nTiles, p.grid));
  }

  /** The split every launch gets: it leaves nothing over, its stripes are whole scale groups, and
      no stripe is shorter than a tile once there is a grid's worth of shared tiles. */
  lemma SplitIsExact(p: Problem)
    requires p.Valid()
    ensures SplitOf(p).Valid() && SplitOf(p).Exact()
    ensures SplitOf(p).stripe % p.tilesPerGroup == 0
  {
    SplitSizes(p);
    var s := SplitOf(p);
    SharedTilesLeaveRounds(s.tiles, p.grid);
    MulMono(p.kTiles, 1, s.shared);
    StripesReach(p.kTiles * s.shared, p.grid, p.tilesPerGroup);
    if s.shared >= s.grid {
      LongStripes(p.kTiles, s.shared, p.grid, p.tilesPerGroup);
    }
  }

  // ----- An even split -----

  /** A stripe is the least whole number of scale groups of which one for each block covers the work. */
  lemma StripeIsLeast(work: nat, grid: nat, tilesPerGroup: nat, m: nat)
    requires grid > 0 && tilesPerGroup > 0 && m % tilesPerGroup == 0
    ensures Stripe(work, grid, tilesPerGroup) <= m <==> work <= grid * m
  {
    var each := DivCeil(work, grid);
    var groups := m / tilesPerGroup;
    assert m == tilesPerGroup * groups;
    CeilAdjoint(work, grid, m);
    CeilAdjoint(each, tilesPerGroup, groups);
    if DivCeil(each, tilesPerGroup) <= groups {
      MulMono(tilesPerGroup, DivCeil(each, tilesPerGroup), groups);
    } else {
      MulMono(tilesPerGroup, groups + 1, DivCeil(each, tilesPerGroup));
      assert tilesPerGroup * (groups + 1) == tilesPerGroup * groups + tilesPerGroup;
    }
  }

  lemma RemNear(n: nat, grid: nat)
    requires grid > 0
    ensures n < grid ==> n % grid == n
    ensures grid <= n < 2 * grid ==> n % grid == n - grid
  {
    if n < grid {
      FloorIs(n, grid, 0);
    } else if n < 2 * grid {
      FloorIs(n, grid, 1);
    }
  }

  lemma OneInRange(left: nat, grid: nat, n: nat, rem: nat)
    requires left < grid
    requires (n < grid ==> rem == n) && (grid <= n < 2 * grid ==> rem == n - grid)
    ensures n == (if left * 3 <= grid then left + grid else left) <==> (grid < 3 * n <= 4 * grid && rem == left)
  {}

  /** With more tiles than blocks, the shared ones are as many as leave whole rounds, and of such numbers
      the one above a third of the grid and no more than a grid above that. */
  lemma SharedIs(tiles: nat, grid: nat, n: nat)
    requires tiles > grid > 0
    ensures n == SharedTiles(tiles, grid) <==> (grid < 3 * n <= 4 * grid && n % grid == tiles % grid)
  {
    RemNear(n, grid);
    OneInRange(tiles % grid, grid, n, n % grid);
  }

  /** The split of every launch. `m` is any whole number of scale groups. */
  lemma SplitIsEven(p: Problem, m: nat)
    requires p.Valid() && m % p.tilesPerGroup == 0
    ensures
      var s := SplitOf(p);
      && s.tiles == p.parallel * p.nTiles
      && (s.tiles <= p.grid ==> s.shared == s.tiles)
      && (s.tiles > p.grid ==> p.grid < 3 * s.shared <= 4 * p.grid && s.shared % p.grid == s.tiles % p.grid)
      && (s.stripe <= m <==> p.kTiles * s.shared <= p.grid * m)
  {
    var s := SplitOf(p);
    StripeIsLeast(p.kTiles * s.shared, p.grid, p.tilesPerGroup, m);
    if s.tiles > p.grid {
      SharedIs(s.tiles, p.grid, s.shared);
    }
  }

  // ----- What the blocks should agree on -----

  /** Block `b`'s stripe and shared tile `t` have a k-block in common. */
  ghost predicate Meets(p: Split, b: nat, t: nat)
    requires p.Valid()
  {
    p.stripe * b < p.kTiles * t + p.kTiles && p.kTiles * t < (p.stripe * b + p.stripe)
  }

  /** The blocks that hold the first and the last k-block of shared tile `t`. */
  function FirstBlock(p: Split, t: nat): nat
    requires p.Valid()
  {
    p.kTiles * t / p.stripe
  }

  function LastBlock(p: Split, t: nat): nat
    requires p.Valid()
  {
    (p.kTiles * t + p.kTiles - 1) / p.stripe
  }

  /** The shared tile block `b`'s stripe starts in, and the one past the last it reaches. */
  function FirstTile(p: Split, b: nat): nat
    requires p.Valid()
  {
    p.stripe * b / p.kTiles
  }

  function EndTile(p: Split, b: nat): (e: nat)
    requires p.Valid()
    ensures FirstTile(p, b) <= e
  {
    var past := DivCeil((p.stripe * b + p.stripe), p.kTiles);
    if FirstTile(p, b) >= p.shared then FirstTile(p, b)
    else
      StripeReaches(p, b);
      if past < p.shared then past else p.shared
  }

  lemma StripeReaches(p: Split, b: nat)
    requires p.Valid()
    ensures FirstTile(p, b) < DivCeil((p.stripe * b + p.stripe), p.kTiles)
  {
    var D := p.stripe;
    assert D * (b + 1) == D * b + D;
    CeilAdjoint((D * b + D), p.kTiles, FirstTile(p, b));
    FloorAdjoint(D * b, p.kTiles, FirstTile(p, b));
  }

  /** The lock that guards shared tile `t`. */
  function LockOf(p: Split, t: nat): nat
    requires p.Valid()
  {
    if p.shared < p.grid then t else LastBlock(p, t)
  }

  /** A run of k-blocks of one output tile, as one block sees it. `lock` is `NoLock` on a tile
      nobody else touches. */
  datatype Slice = Slice(tile: nat, parId: nat, col: nat, row: nat, iters: nat,
                         count: int, idx: int, lock: Lock)
  {
    predicate Has(g: nat, r: nat) { tile == g && row <= r < row + iters }
  }

  datatype Lock = NoLock | LockAt(off: int)

  function Max(x: int, y: int): int { if x < y then y else x }
  function Min(x: int, y: int): int { if x < y then x else y }

  function OwnSlice(p: Split, b: nat, round: nat): Slice
    requires p.Valid()
  {
    var g := b + p.grid * round;
    Slice(g, Quot(g, p.nTiles), Rem(g, p.nTiles), 0, p.kTiles, 1, 0, NoLock)
  }

  /** Where in the tile's k row the block's part of it starts, and where it ends. */
  function RowFrom(p: Split, b: nat, t: nat): nat
    requires p.Valid()
  {
    Max(p.stripe * b, p.kTiles * t) - p.kTiles * t
  }

  function RowTo(p: Split, b: nat, t: nat): int
    requires p.Valid()
  {
    Min(p.stripe * b + p.stripe, p.kTiles * t + p.kTiles) - p.kTiles * t
  }

  /** The intersection of block `b`'s stripe with shared tile `t`. The order counts backwards
      along k: the block that holds the last k-blocks has index 0. */
  function SharedSlice(p: Split, b: nat, t: nat): Slice
    requires p.Valid() && Meets(p, b, t)
  {
    var g := t + (p.tiles - p.shared);
    var count := LastBlock(p, t) - FirstBlock(p, t) + 1;
    Slice(g, Quot(g, p.nTiles), Rem(g, p.nTiles), RowFrom(p, b, t), RowTo(p, b, t) - RowFrom(p, b, t),
          count, LastBlock(p, t) - b, if count > 1 then LockAt(LockOf(p, t)) else NoLock)
  }

  /** A block meets a tile exactly when it lies between the tile's first and last block. */
  lemma MeetsRange(p: Split, b: nat, t: nat)
    requires p.Valid()
    ensures Meets(p, b, t) <==> FirstBlock(p, t) <= b <= LastBlock(p, t)
    ensures FirstBlock(p, t) <= LastBlock(p, t)
  {
    var D, K := p.stripe, p.kTiles;
    FloorAdjoint(K * t, D, b + 1);
    FloorAdjoint(K * t + K - 1, D, b);
    FloorAdjoint(K * t + K - 1, D, FirstBlock(p, t));
    FloorAdjoint(K * t, D, FirstBlock(p, t));
  }

  /** Seen from the block: it meets the shared tiles `FirstTile..EndTile`, and no others. */
  lemma TileRange(p: Split, b: nat, t: nat)
    requires p.Valid()
    ensures t < p.shared && Meets(p, b, t) <==> FirstTile(p, b) <= t < EndTile(p, b)
  {
    var D, K := p.stripe, p.kTiles;
    StripeReaches(p, b);
    assert K * (t + 1) == K * t + K;
    FloorAdjoint(D * b, K, t + 1);
    CeilAdjoint((D * b + D), K, t);
  }

  /** How many slices block `b` takes, and the `i`-th of them. */
  function VisitCount(p: Split, b: nat): nat
    requires p.Valid()
  {
    p.own + (EndTile(p, b) - FirstTile(p, b))
  }

  function Visit(p: Split, b: nat, i: nat): Slice
    requires p.Valid() && i < VisitCount(p, b)
  {
    if i < p.own then OwnSlice(p, b, i)
    else
      var t := FirstTile(p, b) + (i - p.own);
      TileRange(p, b, t);
      SharedSlice(p, b, t)
  }

  /** The k-blocks a block works on in its first `n` slices. */
  function Load(p: Split, b: nat, n: nat): int
    requires p.Valid() && n <= VisitCount(p, b)
  {
    if n == 0 then 0 else Load(p, b, n - 1) + Visit(p, b, n - 1).iters
  }

  /** How much of a stripe that starts at `from` lies before `to`. */
  function Before(from: int, len: int, to: int): int { Max(0, Min(len, to - from)) }

  lemma {:induction false} OwnLoad(p: Split, b: nat, n: nat)
    requires p.Valid() && n <= p.own <= VisitCount(p, b)
    ensures Load(p, b, n) == p.kTiles * n
  {
    if n > 0 {
      OwnLoad(p, b, n - 1);
      assert p.kTiles * n == p.kTiles * (n - 1) + p.kTiles;
    }
  }

  /** One shared tile more is its part of the stripe more. */
  lemma TileLoad(p: Split, b: nat, t: nat)
    requires p.Valid() && FirstTile(p, b) <= t < EndTile(p, b)
    ensures Meets(p, b, t)
    ensures Before(p.stripe * b, p.stripe, p.kTiles * t) + SharedSlice(p, b, t).iters ==
            Before(p.stripe * b, p.stripe, p.kTiles * t + p.kTiles)
  {
    TileRange(p, b, t);
  }

  lemma LoadStep(p: Split, b: nat, t: nat)
    requires p.Valid() && FirstTile(p, b) <= t < EndTile(p, b) && Meets(p, b, t)
    ensures p.own + (t - FirstTile(p, b)) < VisitCount(p, b)
    ensures Load(p, b, p.own + (t - FirstTile(p, b)) + 1) ==
            Load(p, b, p.own + (t - FirstTile(p, b))) + SharedSlice(p, b, t).iters
  {
    VisitIsShared(p, b, p.own + (t - FirstTile(p, b)));
  }

  lemma NextTileStart(p: Split, t: nat)
    ensures p.kTiles * (t + 1) == p.kTiles * t + p.kTiles
  {}

  lemma StartLoad(p: Split, b: nat)
    requires p.Valid()
    ensures p.own <= VisitCount(p, b)
    ensures Load(p, b, p.own) == p.kTiles * p.own + Before(p.stripe * b, p.stripe, p.kTiles * FirstTile(p, b))
  {
    OwnLoad(p, b, p.own);
    FloorAdjoint(p.stripe * b, p.kTiles, FirstTile(p, b));
  }

  lemma {:induction false} SharedLoad(p: Split, b: nat, t: nat)
    requires p.Valid() && FirstTile(p, b) <= t <= EndTile(p, b)
    ensures p.own + (t - FirstTile(p, b)) <= VisitCount(p, b)
    ensures Load(p, b, p.own + (t - FirstTile(p, b))) ==
            p.kTiles * p.own + Before(p.stripe * b, p.stripe, p.kTiles * t)
    decreases t
  {
    if t == FirstTile(p, b) {
      StartLoad(p, b);
    } else {
      var u := t - 1;
      SharedLoad(p, b, u);
      TileLoad(p, b, u);
      LoadStep(p, b, u);
      NextTileStart(p, u);
    }
  }

  lemma EndOfStripe(p: Split, b: nat)
    requires p.Valid()
    ensures Before(p.stripe * b, p.stripe, p.kTiles * EndTile(p, b)) == Before(p.stripe * b, p.stripe, p.kTiles * p.shared)
  {
    var D, K := p.stripe, p.kTiles;
    FloorAdjoint(D * b, K, FirstTile(p, b));
    if FirstTile(p, b) >= p.shared {
      MulMono(K, p.shared, FirstTile(p, b));
    } else {
      var past := DivCeil(D * b + D, K);
      CeilAdjoint(D * b + D, K, past);
      if past < p.shared {
        MulMono(K, past, p.shared);
      }
    }
  }

  /** What a block works on in all: its whole tiles, and a stripe, or what the stripes before it left. */
  lemma LoadIs(p: Split, b: nat)
    requires p.Valid()
    ensures Load(p, b, VisitCount(p, b)) == p.kTiles * p.own + Before(p.stripe * b, p.stripe, p.kTiles * p.shared)
  {
    SharedLoad(p, b, EndTile(p, b));
    EndOfStripe(p, b);
  }

  /** The work is spread evenly: beyond the whole tiles that every block takes alike, no block takes more
      than it must where each block takes up to `m` k-blocks, a whole number of scale groups, and all of
      them are taken. The first block takes the most. */
  lemma LoadsAreEven(p: Problem, b: nat, m: nat)
    requires p.Valid() && m % p.tilesPerGroup == 0 && SplitOf(p).Valid()
    requires p.kTiles * SplitOf(p).shared <= p.grid * m
    ensures
      var s := SplitOf(p);
      && Load(s, b, VisitCount(s, b)) <= Load(s, 0, VisitCount(s, 0)) <= p.kTiles * s.own + m
      && Load(s, 0, VisitCount(s, 0)) == p.kTiles * s.own + Min(s.stripe, p.kTiles * s.shared)
  {
    var s := SplitOf(p);
    SplitIsEven(p, m);
    LoadIs(s, b);
    LoadIs(s, 0);
    MulMono(s.stripe, 0, b);
    MulMono(s.kTiles, 0, s.shared);
    assert s.stripe * 0 == 0;
  }

  function Visits(p: Split, b: nat): (s: seq<Slice>)
    requires p.Valid()
    ensures |s| == VisitCount(p, b)
  {
    seq(VisitCount(p, b), i requires 0 <= i < VisitCount(p, b) => Visit(p, b, i))
  }

  /** The slices of part 2. */
  lemma VisitIsShared(p: Split, b: nat, n: nat)
    requires p.Valid() && p.own <= n < VisitCount(p, b)
    ensures
      var t := FirstTile(p, b) + (n - p.own);
      t < p.shared && Meets(p, b, t) && Visit(p, b, n) == SharedSlice(p, b, t)
  {
    TileRange(p, b, FirstTile(p, b) + (n - p.own));
  }

  /** A slice's problem and column are the quotient and remainder of its tile's number. */
  lemma VisitPlace(p: Split, b: nat, n: nat)
    requires p.Valid() && n < VisitCount(p, b)
    ensures Visit(p, b, n).col < p.nTiles
    ensures p.nTiles * Visit(p, b, n).parId + Visit(p, b, n).col == Visit(p, b, n).tile
  {
    QuotRem(Visit(p, b, n).tile, p.nTiles);
  }

  /** A block that goes on to the next tile stands at its top, and if the tile is its own too, it
      held the last k-blocks of the one it leaves. */
  lemma NextTile(p: Split, b: nat, n: nat)
    requires p.Valid() && p.own <= n < VisitCount(p, b)
    ensures
      var t := FirstTile(p, b) + (n - p.own);
      var v := Visit(p, b, n);
      && Stands(p, b, n + 1, t + 1, 0, v.col + 1, v.parId)
      && (n + 1 < VisitCount(p, b) ==> LastBlock(p, t) <= b)
  {
    VisitIsShared(p, b, n);
    VisitPlace(p, b, n);
    StripeEnds(p, b, FirstTile(p, b) + (n - p.own));
  }

  lemma StripeEnds(p: Split, b: nat, t: nat)
    requires p.Valid() && Meets(p, b, t)
    ensures p.stripe * b <= p.kTiles * (t + 1)
    ensures FirstTile(p, b) <= t + 1 < EndTile(p, b) ==> LastBlock(p, t) <= b
  {
    assert p.kTiles * (t + 1) == p.kTiles * t + p.kTiles;
    if FirstTile(p, b) <= t + 1 < EndTile(p, b) {
      TileRange(p, b, t + 1);
      FloorBelow(p.kTiles * t + p.kTiles - 1, p.stripe, b);
    }
  }

  /** A block is about to set up its `n`-th slice, in part 2: it stands at the start of its run in
      the tile, with the column possibly one past the last of its problem. */
  ghost predicate Stands(p: Split, b: nat, n: nat, tileId: nat, row: nat, col: nat, par: nat)
    requires p.Valid()
  {
    && p.own <= n <= VisitCount(p, b)
    && tileId == FirstTile(p, b) + (n - p.own)
    && row < p.kTiles && p.kTiles * tileId + row == Max(p.stripe * b, p.kTiles * tileId)
    && col <= p.nTiles && p.nTiles * par + col + p.shared == tileId + p.tiles
  }

  /** Where a stripe starts: inside a tile, at a column of a problem. */
  lemma Crossing(p: Split, b: nat)
    requires p.Valid()
    ensures
      var g := FirstTile(p, b) + (p.tiles - p.shared);
      Stands(p, b, p.own, FirstTile(p, b), Rem(p.stripe * b, p.kTiles), Rem(g, p.nTiles), Quot(g, p.nTiles))
  {
    QuotRem(p.stripe * b, p.kTiles);
    QuotRem(FirstTile(p, b) + (p.tiles - p.shared), p.nTiles);
  }

  // ----- What each block works out -----

  /** The block that holds the first k-block of the tile `[s, s + K)`, from the first stripe
      boundary at or after its start. */
  lemma FirstCut(s: nat, D: nat)
    requires D > 0
    ensures s <= D * DivCeil(s, D)
    ensures s / D == DivCeil(s, D) - (if D * DivCeil(s, D) > s then 1 else 0)
  {
    var c: int := DivCeil(s, D);
    assert D * (c - 1) < s <= D * c by {
      CeilAdjoint(s, D, c);
      CeilAdjoint(s, D, c - 1);
    }
    assert D * (c + 1) == D * c + D;
    assert D * (c - 1) == D * c - D;
    FloorIs(s, D, if D * c > s then c - 1 else c);
  }

  /** The block that holds the last one, from a boundary `c` stripes in. */
  lemma LastCut(end: nat, D: nat, c: nat)
    requires D > 0 && end > 0
    ensures end < D * c ==> (end - 1) / D < c
    ensures D * c <= end ==> DivCeil(end - D * c, D) == (end - 1) / D + 1 - c
  {
    if D * c <= end {
      FloorShift(end - D * c + D - 1, D, c);
      FloorShift(end - 1, D, 1);
      assert end - D * c + D - 1 + D * c == end - 1 + D * 1;
    } else {
      FloorAdjoint(end - 1, D, c);
    }
  }

  /** How many stripes lie between the boundary at `c` stripes and the start of stripe `b`. */
  lemma CutsPast(D: nat, b: nat, c: nat)
    requires D > 0
    ensures D * b - D * c < 0 <==> b < c
    ensures b >= c ==> (D * b - D * c) / D == b - c
  {
    assert D * b - D * c == D * (b - c);
    if b >= c {
      MulMono(D, c, b);
      FloorIs(D * b - D * c, D, b - c);
    } else {
      MulMono(D, b - c, -1);
    }
  }

  /** With at least a grid's worth of shared tiles a stripe is no shorter than a tile, so no tile
      is cut more than once. */
  lemma AtMostTwo(p: Split, t: nat)
    requires p.Valid() && p.shared >= p.grid
    ensures LastBlock(p, t) <= FirstBlock(p, t) + 1
  {
    var D, K, fb := p.stripe, p.kTiles, FirstBlock(p, t);
    FloorAdjoint(K * t, D, fb + 1);
    assert D * (fb + 2) == D * (fb + 1) + D;
    FloorAdjoint(K * t + K - 1, D, fb + 2);
  }

  class Block {
    const p: Split
    const b: nat
    var inPart2: bool
    var ownTiles: int
    var tileId: nat
    var sliceRow: nat
    var sliceCol: nat
    var sliceIters: nat
    var sliceCount: int
    var sliceIdx: int
    var parId: nat
    var locksOff: int

    /** The slice the block stands in, as a value. */
    function Current(): Slice
      requires p.Valid()
      reads this
    {
      Slice(if inPart2 then tileId + (p.tiles - p.shared) else tileId,
            parId, sliceCol, sliceRow, sliceIters, sliceCount, sliceIdx,
            if sliceCount > 1 then LockAt(locksOff) else NoLock)
    }

    /** The block stands at its `n`-th slice; past the last one it has nothing left. */
    ghost predicate At(n: nat)
      reads this
    {
      && p.Valid() && b < p.grid
      && n <= VisitCount(p, b)
      && (n < VisitCount(p, b) ==> sliceIters > 0 && Current() == Visit(p, b, n))
      && (n == VisitCount(p, b) ==> sliceIters == 0)
      && inPart2 == (n >= p.own)
      && (n < p.own ==> ownTiles == p.own - n - 1 && locksOff == FirstLock())
      && (inPart2 ==> tileId == FirstTile(p, b) + (n - p.own))
      && (inPart2 && n < VisitCount(p, b) ==> locksOff == LockAfter(tileId))
    }

    ghost function FirstLock(): int
      requires p.Valid()
      reads this
    {
      if p.shared >= p.grid then b else FirstTile(p, b) - 1
    }

    /** The lock offset once the block has set up its piece of shared tile `t`. */
    ghost function LockAfter(t: nat): int
      requires p.Valid()
      reads this
    {
      if p.shared < p.grid then t
      else if FirstBlock(p, t) == b < LastBlock(p, t) then b + 1 else b
    }

    /** The block knows its own number and the launch, and takes its first slice. */
    constructor (p: Split, b: nat)
      requires p.Valid() && b < p.grid
      ensures At(0) && this.p == p && this.b == b
    {
      this.p := p;
      this.b := b;
      inPart2 := false;
      sliceRow := 0;
      tileId := b;
      sliceCol := 0;
      sliceIters := p.kTiles;
      sliceCount := 1;
      sliceIdx := 0;
      parId := 0;
      ownTiles := p.own;
      locksOff := if p.shared >= p.grid then b else p.stripe * b / p.kTiles - 1;
      new;
      InitSlice(0);
    }

    /** How many stripes the tile is cut between, and where this block sits among them. */
    method PlaceInTile() returns (count: int, idx: int)
      requires p.Valid() && Meets(p, b, tileId)
      ensures count == LastBlock(p, tileId) - FirstBlock(p, tileId) + 1
      ensures idx == LastBlock(p, tileId) - b
    {
      var stripe, kTiles, tileStart := p.stripe, p.kTiles, p.kTiles * tileId;
      ghost var fb, lb := FirstBlock(p, tileId), LastBlock(p, tileId);
      var cuts := DivCeil(tileStart, stripe);
      var firstCut := stripe * cuts;
      assert fb <= b <= lb by { MeetsRange(p, b, tileId); }
      assert firstCut >= tileStart && fb == cuts - (if firstCut > tileStart then 1 else 0) by {
        FirstCut(tileStart, stripe);
      }
      if firstCut > tileStart + kTiles {
        assert lb < cuts by { LastCut(tileStart + kTiles, stripe, cuts); }
        return 1, 0;
      }
      var head := firstCut - tileStart;
      var whole := DivCeil(kTiles - head, stripe);
      assert whole == lb + 1 - cuts by { LastCut(tileStart + kTiles, stripe, cuts); }
      count := whole + (if head > 0 then 1 else 0);
      var pastCut := stripe * b - firstCut;
      var forward := if pastCut < 0 then 0 else pastCut / stripe + (if head > 0 then 1 else 0);
      assert forward == b - fb by { CutsPast(stripe, b, cuts); }
      idx := count - 1 - forward;
    }

    /** A part-2 slice: a run of k-blocks inside one shared tile. `Upcoming` is where the caller
        has put the block. */
    method InitPart2Slice(ghost n: nat)
      requires Upcoming(n)
      modifies this
      ensures At(n)
    {
      var here := p.kTiles * tileId + sliceRow;
      var left := p.stripe * (b + 1) - here;
      assert p.stripe * (b + 1) == p.stripe * b + p.stripe;
      var room := p.kTiles - sliceRow;
      Ahead(n);
      sliceIters := if tileId < p.shared && left > 0 then (if left < room then left else room) else 0;
      if sliceIters == 0 {
        return;
      }
      sliceCount, sliceIdx := PlaceInTile();
      if sliceCol == p.nTiles {
        assert p.nTiles * (parId + 1) == p.nTiles * parId + p.nTiles;
        parId := parId + 1;
        sliceCol := 0;
      }
      if p.shared < p.grid || (sliceCount > 1 && sliceIdx == sliceCount - 1) {
        locksOff := locksOff + 1;
      }
      Settled(n);
    }

    /** Where a block stands as it enters `InitPart2Slice`. */
    ghost predicate Upcoming(n: nat)
      reads this
    {
      && p.Valid() && b < p.grid && inPart2
      && Stands(p, b, n, tileId, sliceRow, sliceCol, parId)
      && (n < VisitCount(p, b) ==> locksOff == if p.shared < p.grid then tileId - 1 else b)
    }

    /** Whether a piece is left, in the source's terms and in the plan's. */
    lemma Ahead(n: nat)
      requires Upcoming(n)
      ensures n < VisitCount(p, b) <==>
              tileId < p.shared && Max(p.stripe * b, p.kTiles * tileId) < (p.stripe * b + p.stripe)
      ensures n < VisitCount(p, b) ==> Meets(p, b, tileId)
    {
      TileRange(p, b, tileId);
      var D, K := p.stripe, p.kTiles;
      assert D * (b + 1) == D * b + D;
    }

    /** The fields, once set, are the plan's slice. */
    lemma Settled(n: nat)
      requires p.Valid() && b < p.grid && inPart2
      requires p.own <= n < VisitCount(p, b)
      requires tileId == FirstTile(p, b) + (n - p.own) && Meets(p, b, tileId)
      requires p.kTiles * tileId + sliceRow == Max(p.stripe * b, p.kTiles * tileId)
      requires sliceIters == Min((p.stripe * b + p.stripe) - p.kTiles * tileId, p.kTiles) - sliceRow > 0
      requires sliceCount == LastBlock(p, tileId) - FirstBlock(p, tileId) + 1
      requires sliceIdx == LastBlock(p, tileId) - b
      requires sliceCol < p.nTiles
      requires p.nTiles * parId + sliceCol + p.shared == tileId + p.tiles
      requires locksOff == LockAfter(tileId)
      ensures At(n)
    {
      QuotRemIs(tileId + (p.tiles - p.shared), p.nTiles, parId, sliceCol);
      assert Current() == SharedSlice(p, b, tileId) by {
        MeetsRange(p, b, tileId);
        if p.shared >= p.grid {
          AtMostTwo(p, tileId);
        }
      }
    }

    /** The crossing into part 2: the flat index restarts at the head of the shared tiles. */
    method CrossOver(ghost n: nat)
      requires p.Valid() && b < p.grid && n == p.own && locksOff == FirstLock()
      modifies this
      ensures Upcoming(n)
    {
      Crossing(p, b);
      inPart2 := true;
      var flat := p.stripe * b;
      tileId := flat / p.kTiles;
      sliceRow := flat % p.kTiles;
      var globalTile := tileId + (p.tiles - p.shared);
      sliceCol := globalTile % p.nTiles;
      parId := globalTile / p.nTiles;
    }

    /** Take the next piece, whichever part it comes from. */
    method InitSlice(ghost n: nat)
      requires p.Valid() && b < p.grid && n <= VisitCount(p, b)
      requires inPart2 ==> Upcoming(n)
      requires !inPart2 ==> n <= p.own && ownTiles == p.own - n && sliceRow == 0 &&
                            sliceCount == 1 && sliceIdx == 0 &&
                            tileId == b + p.grid * n && locksOff == FirstLock()
      modifies this
      ensures At(n)
    {
      if !inPart2 && ownTiles == 0 {
        CrossOver(n);
      }
      if inPart2 {
        InitPart2Slice(n);
        return;
      }
      ownTiles := ownTiles - 1;
      parId := tileId / p.nTiles;
      sliceCol := tileId % p.nTiles;
      sliceIters := p.kTiles;
      assert Current() == OwnSlice(p, b, n);
    }

    /** Move on once a piece is finished. */
    method NextSlice(ghost n: nat)
      requires At(n) && n < VisitCount(p, b)
      modifies this
      ensures At(n + 1)
    {
      sliceRow := 0;
      if inPart2 {
        NextTile(p, b, n);
        tileId := tileId + 1;
        sliceCol := sliceCol + 1;
      } else {
        assert p.grid * (n + 1) == p.grid * n + p.grid;
        tileId := tileId + p.grid;
      }
      InitSlice(n + 1);
    }
  }

  /** The kernel's outer loop: the slices a block goes through are the planned ones, in order. */
  method Run(p: Split, b: nat) returns (trace: seq<Slice>)
    requires p.Valid() && b < p.grid
    ensures trace == Visits(p, b)
  {
    var block := new Block(p, b);
    trace := [];
    while block.sliceIters != 0
      invariant block.p == p && block.b == b
      invariant |trace| <= VisitCount(p, b) && block.At(|trace|)
      invariant fresh(block)
      invariant trace == Visits(p, b)[..|trace|]
      decreases VisitCount(p, b) - |trace|
    {
      ghost var n := |trace|;
      trace := trace + [block.Current()];
      block.NextSlice(n);
    }
  }

  // ----- What the blocks agree on -----

  /** Where a tile's k-block is worked on: the block, and the slice of that block. */
  function OwnerBlock(p: Split, g: nat, r: nat): nat
    requires p.Valid() && g < p.tiles
  {
    if g < p.tiles - p.shared then g % p.grid
    else (p.kTiles * (g - (p.tiles - p.shared)) + r) / p.stripe
  }

  function OwnerSlice(p: Split, g: nat, r: nat): int
    requires p.Valid() && g < p.tiles
  {
    if g < p.tiles - p.shared then g / p.grid
    else p.own + (g - (p.tiles - p.shared)) - FirstTile(p, OwnerBlock(p, g, r))
  }

  lemma OwnerIs(p: Split, g: nat, t: nat, r: nat)
    requires p.Valid() && g < p.tiles && t == g - (p.tiles - p.shared)
    ensures OwnerBlock(p, g, r) == (p.kTiles * t + r) / p.stripe
    ensures OwnerSlice(p, g, r) == p.own + (t - FirstTile(p, OwnerBlock(p, g, r)))
  {}

  lemma CoveredAt(p: Split, g: nat, t: nat, r: nat, b: nat)
    requires p.Valid() && p.Exact() && t < p.shared && r < p.kTiles && b == (p.kTiles * t + r) / p.stripe
    requires g == t + (p.tiles - p.shared)
    ensures b < p.grid && 0 <= p.own + (t - FirstTile(p, b)) < VisitCount(p, b)
    ensures Visit(p, b, p.own + (t - FirstTile(p, b))).Has(g, r)
  {
    CoveredShared(p, t, r, b);
    VisitOf(p, b, t);
  }

  /** Every k-block of every tile lies in its owner's slice. */
  lemma Covered(p: Split, g: nat, r: nat)
    requires p.Valid() && p.Exact() && g < p.tiles && r < p.kTiles
    ensures OwnerBlock(p, g, r) < p.grid
    ensures 0 <= OwnerSlice(p, g, r) < VisitCount(p, OwnerBlock(p, g, r))
    ensures Visit(p, OwnerBlock(p, g, r), OwnerSlice(p, g, r)).Has(g, r)
  {
    if g < p.tiles - p.shared {
      CoveredOwn(p, g);
    } else {
      var t := g - (p.tiles - p.shared);
      OwnerIs(p, g, t, r);
      CoveredAt(p, g, t, r, OwnerBlock(p, g, r));
    }
  }

  lemma VisitOf(p: Split, b: nat, t: nat)
    requires p.Valid() && FirstTile(p, b) <= t < EndTile(p, b) && Meets(p, b, t)
    ensures 0 <= p.own + (t - FirstTile(p, b)) < VisitCount(p, b)
    ensures Visit(p, b, p.own + (t - FirstTile(p, b))) == SharedSlice(p, b, t)
  {}

  lemma CoveredOwn(p: Split, g: nat)
    requires p.Valid() && p.Exact() && g < p.tiles - p.shared
    ensures g / p.grid < p.own && OwnSlice(p, g % p.grid, g / p.grid).tile == g
  {
    FloorAdjoint(g, p.grid, p.own);
  }

  lemma CoveredShared(p: Split, t: nat, r: nat, b: nat)
    requires p.Valid() && p.Exact() && t < p.shared && r < p.kTiles && b == (p.kTiles * t + r) / p.stripe
    ensures b < p.grid && FirstTile(p, b) <= t < EndTile(p, b) && Meets(p, b, t)
    ensures SharedSlice(p, b, t).row <= r < SharedSlice(p, b, t).row + SharedSlice(p, b, t).iters
  {
    HeldBy(p, t, r, b);
    TileRange(p, b, t);
  }

  /** A position of a shared tile is in block `b`'s stripe exactly when `b` is its quotient. */
  lemma HeldBy(p: Split, t: nat, r: nat, b: nat)
    requires p.Valid() && r < p.kTiles
    ensures b == (p.kTiles * t + r) / p.stripe <==> p.stripe * b <= p.kTiles * t + r < (p.stripe * b + p.stripe)
    ensures b == (p.kTiles * t + r) / p.stripe ==> Meets(p, b, t)
    ensures p.Exact() && t < p.shared ==> (p.kTiles * t + r) / p.stripe < p.grid
  {
    var D, K, pos := p.stripe, p.kTiles, p.kTiles * t + r;
    assert D * (b + 1) == D * b + D;
    FloorAdjoint(pos, D, b);
    FloorAdjoint(pos, D, b + 1);
    if p.Exact() && t < p.shared {
      MulMono(K, t + 1, p.shared);
      assert K * (t + 1) == K * t + K;
      FloorAdjoint(pos, D, p.grid);
    }
  }

  /** No other slice of any block holds it. */
  lemma CoveredByOne(p: Split, g: nat, r: nat, b: nat, i: nat)
    requires p.Valid() && p.Exact() && g < p.tiles
    requires b < p.grid && i < VisitCount(p, b) && Visit(p, b, i).Has(g, r)
    ensures r < p.kTiles && b == OwnerBlock(p, g, r) && i == OwnerSlice(p, g, r)
  {
    if i < p.own {
      assert g == b + p.grid * i;
      MulMono(p.grid, i + 1, p.own);
      assert p.grid * (i + 1) == p.grid * i + p.grid;
      FloorIs(g, p.grid, i);
    } else {
      VisitIsShared(p, b, i);
      HeldBy(p, g - (p.tiles - p.shared), r, b);
    }
  }

  /** Every k-block of every output tile is worked on exactly once, over all slices of all blocks. */
  lemma EachKBlockExactlyOnce(p: Split, g: nat, r: nat)
    requires p.Valid() && p.Exact() && g < p.tiles && r < p.kTiles
    ensures exists b: nat, i: nat ::
              && b < p.grid && i < VisitCount(p, b) && Visit(p, b, i).Has(g, r)
              && forall c: nat, j: nat | c < p.grid && j < VisitCount(p, c) && Visit(p, c, j).Has(g, r) ::
                   c == b && j == i
  {
    Covered(p, g, r);
    var b: nat, i: nat := OwnerBlock(p, g, r), OwnerSlice(p, g, r);
    assert Visit(p, b, i).Has(g, r);
    forall c: nat, j: nat | c < p.grid && j < VisitCount(p, c) && Visit(p, c, j).Has(g, r)
      ensures c == b && j == i
    {
      CoveredByOne(p, g, r, c, j);
    }
  }

  /** And nothing outside the output is: a slice stays within one tile. `VisitPlace` says which
      column of which problem that tile is. */
  lemma SlicesStayInside(p: Split, b: nat, i: nat)
    requires p.Valid() && p.Exact() && b < p.grid && i < VisitCount(p, b)
    ensures Visit(p, b, i).tile < p.tiles
    ensures Visit(p, b, i).iters > 0 && Visit(p, b, i).row + Visit(p, b, i).iters <= p.kTiles
  {
    if i < p.own {
      OwnTilesFirst(p, b, i);
    } else {
      VisitIsShared(p, b, i);
    }
  }

  lemma OwnTilesFirst(p: Split, b: nat, i: nat)
    requires p.Valid() && p.Exact() && b < p.grid && i < p.own
    ensures b + p.grid * i < p.tiles - p.shared
  {
    MulMono(p.grid, i + 1, p.own);
    assert p.grid * (i + 1) == p.grid * i + p.grid;
  }

  /** No slice starts in the middle of a scale group. */
  lemma SlicesStartAtAGroup(p: Problem, b: nat, i: nat)
    requires p.Valid() && SplitOf(p).Valid() && i < VisitCount(SplitOf(p), b)
    ensures Visit(SplitOf(p), b, i).row % p.tilesPerGroup == 0
  {
    SplitIsExact(p);
    RowsAreMultiples(SplitOf(p), p.tilesPerGroup, b, i);
  }

  lemma VisitRow(p: Split, b: nat, i: nat)
    requires p.Valid() && i < VisitCount(p, b)
    ensures Visit(p, b, i).row == if i < p.own then 0 else RowFrom(p, b, FirstTile(p, b) + (i - p.own))
  {}

  lemma RowsAreMultiples(s: Split, g: nat, b: nat, i: nat)
    requires s.Valid() && g > 0 && s.stripe % g == 0 && s.kTiles % g == 0 && i < VisitCount(s, b)
    ensures Visit(s, b, i).row % g == 0
  {
    VisitRow(s, b, i);
    if i >= s.own {
      RowIsMultiple(s, g, b, FirstTile(s, b) + (i - s.own));
    }
  }

  lemma RowIsMultiple(s: Split, g: nat, b: nat, t: nat)
    requires s.Valid() && g > 0 && s.stripe % g == 0 && s.kTiles % g == 0
    ensures RowFrom(s, b, t) % g == 0
  {
    MultiplesApart(g, s.stripe, b, s.kTiles, t);
  }

  lemma MultiplesApart(g: nat, D: nat, b: nat, K: nat, t: nat)
    requires g > 0 && D % g == 0 && K % g == 0
    ensures (D * b - K * t) % g == 0
  {
    var x, y := D / g, K / g;
    assert D == g * x && K == g * y;
    assert g * x * b - g * y * t == g * (x * b - y * t);
    FloorIs(g * (x * b - y * t), g, x * b - y * t);
  }

  /** The blocks that take a slice of tile `g`. */
  ghost function Sharers(p: Split, g: nat): set<nat>
    requires p.Valid()
  {
    set b: nat | b < p.grid && TakesPart(p, b, g)
  }

  ghost predicate TakesPart(p: Split, b: nat, g: nat)
    requires p.Valid()
  {
    exists i: nat :: i < VisitCount(p, b) && Visit(p, b, i).tile == g
  }

  /** The numbers `lo..hi`, as a set. */
  ghost function Interval(lo: nat, hi: nat): (s: set<nat>)
    requires lo <= hi
    ensures forall b: nat :: b in s <==> lo <= b < hi
    ensures |s| == hi - lo
    decreases hi - lo
  {
    if lo == hi then {} else {lo} + Interval(lo + 1, hi)
  }

  /** A tile of part 1 has one block to itself. */
  lemma OwnTileSharers(p: Split, g: nat)
    requires p.Valid() && p.Exact() && g < p.tiles - p.shared
    ensures Sharers(p, g) == {OwnerBlock(p, g, 0)}
  {
    Covered(p, g, 0);
    forall b: nat | b < p.grid && TakesPart(p, b, g)
      ensures b == OwnerBlock(p, g, 0)
    {
      var i: nat :| i < VisitCount(p, b) && Visit(p, b, i).tile == g;
      SharedFromOwn(p, b, i);
      CoveredByOne(p, g, 0, b, i);
    }
  }

  /** The sharers of a tile of part 2 are a run of consecutive blocks. */
  lemma SharedTileSharers(p: Split, t: nat)
    requires p.Valid() && p.Exact() && t < p.shared
    ensures FirstBlock(p, t) <= LastBlock(p, t) < p.grid
    ensures Sharers(p, t + (p.tiles - p.shared)) == Interval(FirstBlock(p, t), LastBlock(p, t) + 1)
  {
    HeldBy(p, t, p.kTiles - 1, 0);
    MeetsRange(p, 0, t);
    var g := t + (p.tiles - p.shared);
    forall b: nat | b < p.grid
      ensures TakesPart(p, b, g) <==> FirstBlock(p, t) <= b <= LastBlock(p, t)
    {
      TakesPartIff(p, b, t);
    }
  }

  lemma TakesPartIff(p: Split, b: nat, t: nat)
    requires p.Valid() && p.Exact() && t < p.shared && b < p.grid
    ensures TakesPart(p, b, t + (p.tiles - p.shared)) <==> FirstBlock(p, t) <= b <= LastBlock(p, t)
  {
    var g := t + (p.tiles - p.shared);
    MeetsRange(p, b, t);
    TileRange(p, b, t);
    if Meets(p, b, t) {
      var i: nat := p.own + (t - FirstTile(p, b));
      VisitIsShared(p, b, i);
      assert Visit(p, b, i).tile == g;
    }
    if TakesPart(p, b, g) {
      var i: nat :| i < VisitCount(p, b) && Visit(p, b, i).tile == g;
      SharedFromOwn(p, b, i);
      VisitIsShared(p, b, i);
    }
  }

  /** Tiles of part 1 come before the shared ones. */
  lemma SharedFromOwn(p: Split, b: nat, i: nat)
    requires p.Valid() && p.Exact() && b < p.grid && i < VisitCount(p, b)
    ensures i >= p.own <==> Visit(p, b, i).tile >= p.tiles - p.shared
  {
    if i < p.own {
      OwnTilesFirst(p, b, i);
    } else {
      VisitIsShared(p, b, i);
    }
  }

  ghost function Later(blocks: set<nat>, b: nat): set<nat> { set c | c in blocks && c > b }

  /** Each block's own count of the sharers of its tile is right, and so is its place among them:
      the number of sharers that come after it along k. */
  lemma SharersAgree(p: Split, b: nat, i: nat)
    requires p.Valid() && p.Exact() && b < p.grid && i < VisitCount(p, b)
    ensures
      var v := Visit(p, b, i);
      && v.count == |Sharers(p, v.tile)|
      && v.idx == |Later(Sharers(p, v.tile), b)|
      && 0 <= v.idx < v.count
  {
    if i < p.own {
      var g := Visit(p, b, i).tile;
      OwnTilesFirst(p, b, i);
      OwnTileSharers(p, g);
      CoveredByOne(p, g, 0, b, i);
      assert Later(Sharers(p, g), b) == {};
    } else {
      VisitIsShared(p, b, i);
      SharedTileCount(p, b, FirstTile(p, b) + (i - p.own));
      SharedTilePlace(p, b, FirstTile(p, b) + (i - p.own));
    }
  }

  lemma SharedTileCount(p: Split, b: nat, t: nat)
    requires p.Valid() && p.Exact() && t < p.shared && Meets(p, b, t)
    ensures SharedSlice(p, b, t).count == |Sharers(p, t + (p.tiles - p.shared))|
  {
    SharedTileSharers(p, t);
  }

  lemma SharedTilePlace(p: Split, b: nat, t: nat)
    requires p.Valid() && p.Exact() && t < p.shared && Meets(p, b, t)
    ensures SharedSlice(p, b, t).idx == |Later(Sharers(p, t + (p.tiles - p.shared)), b)|
    ensures 0 <= SharedSlice(p, b, t).idx < SharedSlice(p, b, t).count
  {
    MeetsRange(p, b, t);
    SharedTileSharers(p, t);
    RunAgrees(Sharers(p, t + (p.tiles - p.shared)), FirstBlock(p, t), LastBlock(p, t), b);
  }

  lemma RunAgrees(blocks: set<nat>, first: nat, last: nat, b: nat)
    requires first <= b <= last && blocks == Interval(first, last + 1)
    ensures |blocks| == last - first + 1 && |Later(blocks, b)| == last - b
  {
    assert Later(blocks, b) == Interval(b + 1, last + 1);
  }

  /** Two slices of one tile taken by different blocks have different places. */
  lemma PlacesDiffer(p: Split, b: nat, i: nat, c: nat, j: nat)
    requires p.Valid() && p.Exact() && b < p.grid && c < p.grid
    requires i < VisitCount(p, b) && j < VisitCount(p, c)
    requires Visit(p, b, i).tile == Visit(p, c, j).tile
    ensures Visit(p, b, i).idx == Visit(p, c, j).idx <==> b == c && i == j
  {
    var g := Visit(p, b, i).tile;
    SharedFromOwn(p, b, i);
    SharedFromOwn(p, c, j);
    if i < p.own {
      SlicesStayInside(p, b, i);
      CoveredByOne(p, g, 0, b, i);
      CoveredByOne(p, g, 0, c, j);
    } else {
      VisitIsShared(p, b, i);
      VisitIsShared(p, c, j);
    }
  }

  /** Slices go through the same lock exactly when they are slices of the same tile, and there is a
      lock for every shared tile among the grid's. */
  lemma LocksNameTiles(p: Split, b: nat, i: nat, c: nat, j: nat)
    requires p.Valid() && p.Exact() && b < p.grid && c < p.grid
    requires i < VisitCount(p, b) && j < VisitCount(p, c)
    requires Visit(p, b, i).count > 1 && Visit(p, c, j).count > 1
    ensures Visit(p, b, i).lock == Visit(p, c, j).lock <==> Visit(p, b, i).tile == Visit(p, c, j).tile
    ensures Visit(p, b, i).lock.LockAt? && 0 <= Visit(p, b, i).lock.off < p.grid
  {
    var t := LockedTile(p, b, i);
    var u := LockedTile(p, c, j);
    if t < u {
      LocksDiffer(p, t, u);
    } else if u < t {
      LocksDiffer(p, u, t);
    }
  }

  /** A slice that goes through a lock: which shared tile it is of. */
  lemma LockedTile(p: Split, b: nat, i: nat) returns (t: nat)
    requires p.Valid() && p.Exact() && b < p.grid && i < VisitCount(p, b) && Visit(p, b, i).count > 1
    ensures FirstBlock(p, t) < LastBlock(p, t)
    ensures Visit(p, b, i).tile == t + (p.tiles - p.shared)
    ensures Visit(p, b, i).lock == LockAt(LockOf(p, t)) && LockOf(p, t) < p.grid
  {
    VisitIsShared(p, b, i);
    t := FirstTile(p, b) + (i - p.own);
    TileRange(p, b, t);
    HeldBy(p, t, p.kTiles - 1, 0);
  }

  lemma LocksDiffer(p: Split, t: nat, u: nat)
    requires p.Valid() && t < u
    requires FirstBlock(p, t) < LastBlock(p, t) && FirstBlock(p, u) < LastBlock(p, u)
    ensures LastBlock(p, t) < LastBlock(p, u)
    ensures LockOf(p, t) != LockOf(p, u)
  {
    var D, K := p.stripe, p.kTiles;
    MulMono(K, t + 1, u);
    assert K * (t + 1) == K * t + K;
    FloorAdjoint(K * u, D, LastBlock(p, t));
    FloorAdjoint(K * t + K - 1, D, LastBlock(p, t));
  }
}

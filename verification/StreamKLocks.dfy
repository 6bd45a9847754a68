/**
 The hand-over between the blocks that share an output tile: a spin lock that counts how many of
 them have added their part, and a scratch buffer the partial sum travels through. The blocks are
 modelled as the steps of one transition system; a run is any sequence of enabled steps, so a
 theorem about all runs is a theorem about all interleavings. Fragments are terms: `Add` is never
 assumed associative or commutative, so two equal sums are equal under any rounding.
 */
module StreamKLocks {

  /** What a tile accumulates: one block's own product, or one fragment added to another. */
  datatype Frag =
    | Nothing
    | WholeTile(block: nat, round: nat)
    | Part(block: nat, tile: nat)
    | Add(mine: Frag, theirs: Frag)

  /** What the blocks know of the split: `own` rounds of whole tiles each, then, for block `b`, its
      part of the shared tiles `begin[b]..end[b]`. Shared tile `t` is cut between the blocks
      `first[t]..last[t]`, who meet at lock `lock[t]`. */
  datatype Plan = Plan(own: nat, first: seq<nat>, last: seq<nat>, lock: seq<nat>, begin: seq<nat>, end: seq<nat>)
  {
    function Grid(): nat { |begin| }
    function Shared(): nat { |first| }

    ghost predicate Valid() {
      && |last| == |first| && |lock| == |first| && |end| == |begin|
      && (forall b | 0 <= b < Grid() :: begin[b] <= end[b])
      && (forall t | 0 <= t < Shared() :: first[t] <= last[t] < Grid())
      && (forall b, t | 0 <= b < Grid() && 0 <= t :: begin[b] <= t < end[b] <==> t < Shared() && first[t] <= b <= last[t])
      && (forall t | 0 <= t < Shared() && first[t] < last[t] :: lock[t] < Grid())
      && (forall t, u | 0 <= t < u < Shared() && first[t] < last[t] && first[u] < last[u] :: lock[t] != lock[u])
    }

    /** How many slices block `b` takes. */
    function Slices(b: nat): nat
      requires Valid() && b < Grid()
    {
      own + (end[b] - begin[b])
    }

    /** The shared tile of its `i`-th slice. */
    function TileAt(b: nat, i: nat): (t: nat)
      requires Valid() && b < Grid() && own <= i < Slices(b)
      ensures t < Shared() && first[t] <= b <= last[t]
    {
      begin[b] + (i - own)
    }

    function Count(t: nat): nat
      requires Valid() && t < Shared()
    {
      last[t] - first[t] + 1
    }

    function Idx(b: nat, t: nat): nat
      requires Valid() && t < Shared() && first[t] <= b <= last[t]
    {
      last[t] - b
    }
  }

  /** Where a block stands within its current slice: still multiplying; its sum ready; holding the
      lock; its part added; the lock handed on. */
  datatype Phase = Working | Ready | Held | Added | Released
  {
    function Rank(): nat {
      match this case Working => 0 case Ready => 1 case Held => 2 case Added => 3 case Released => 4
    }
  }

  /** A store of one of a block's own tiles: in which round, and what. */
  datatype Store = Store(round: nat, sum: Frag)

  datatype BlockState = BlockState(at: nat, phase: Phase, acc: Frag)

  /** `locks` and `tmp` are the lock words and the scratch tiles; `out` and `whole` collect every
      write of a shared tile and of a block's own tiles. `turns` is a history variable: how many
      blocks are done with each shared tile. No step reads it. */
  datatype State = State(blocks: seq<BlockState>, locks: seq<nat>, tmp: seq<Frag>,
                         out: seq<seq<Frag>>, whole: seq<seq<Store>>, turns: seq<nat>)

  ghost predicate Shaped(p: Plan, s: State) {
    && p.Valid()
    && |s.blocks| == |s.locks| == |s.tmp| == |s.whole| == p.Grid()
    && |s.out| == |s.turns| == p.Shared()
    && (forall b | 0 <= b < p.Grid() :: s.blocks[b].at <= p.Slices(b))
    && (forall b | 0 <= b < p.Grid() && s.blocks[b].at < p.own :: s.blocks[b].phase in {Working, Released})
  }

  function Initial(p: Plan): State
    requires p.Valid()
  {
    var n := p.Grid();
    State(seq(n, i => BlockState(0, Working, Nothing)), seq(n, i => 0), seq(n, i => Nothing),
          seq(p.Shared(), i => []), seq(n, i => []), seq(p.Shared(), i => 0))
  }

  /** Only the spin can make a block wait. */
  ghost predicate Enabled(p: Plan, s: State, b: nat)
    requires Shaped(p, s)
  {
    && b < p.Grid() && s.blocks[b].at < p.Slices(b)
    && (s.blocks[b].phase.Ready? ==>
          var t := p.TileAt(b, s.blocks[b].at);
          p.first[t] < p.last[t] ==> s.locks[p.lock[t]] == p.Idx(b, t))
  }

  /** Block `b` takes its next step. */
  function Step(p: Plan, s: State, b: nat): State
    requires Shaped(p, s) && b < p.Grid() && s.blocks[b].at < p.Slices(b)
  {
    var me := s.blocks[b];
    if me.at < p.own then
      if me.phase.Working? then
        s.(blocks := s.blocks[b := me.(phase := Released, acc := WholeTile(b, me.at))])
      else
        s.(blocks := s.blocks[b := BlockState(me.at + 1, Working, me.acc)],
           whole := s.whole[b := s.whole[b] + [Store(me.at, me.acc)]])
    else
      StepShared(p, s, b, p.TileAt(b, me.at))
  }

  function StepShared(p: Plan, s: State, b: nat, t: nat): State
    requires Shaped(p, s) && b < p.Grid() && t < p.Shared() && p.first[t] <= b <= p.last[t]
  {
    var me := s.blocks[b];
    var idx := p.Idx(b, t);
    var writer := idx == p.Count(t) - 1;
    if p.Count(t) == 1 && me.phase.Working? then
      s.(blocks := s.blocks[b := me.(phase := Released, acc := Part(b, t))], turns := s.turns[t := s.turns[t] + 1])
    else
      match me.phase
      case Working => s.(blocks := s.blocks[b := me.(phase := Ready, acc := Part(b, t))])
      case Ready => s.(blocks := s.blocks[b := me.(phase := Held)])
      case Held =>
        if p.Count(t) == 1 then s else
        var acc := if idx == 0 then me.acc else Add(me.acc, s.tmp[p.lock[t]]);
        s.(blocks := s.blocks[b := me.(phase := Added, acc := acc)],
           tmp := if writer then s.tmp else s.tmp[p.lock[t] := acc])
      case Added =>
        if p.Count(t) == 1 then s else
        s.(blocks := s.blocks[b := me.(phase := Released)],
           locks := s.locks[p.lock[t] := if writer then 0 else s.locks[p.lock[t]] + 1],
           turns := s.turns[t := s.turns[t] + 1])
      case Released =>
        s.(blocks := s.blocks[b := BlockState(me.at + 1, Working, me.acc)],
           out := if writer then s.out[t := s.out[t] + [me.acc]] else s.out)
  }

  // ----- What every step keeps -----

  /** The first `k` parts of tile `t`, in the order of the slice index. */
  ghost function Sum(p: Plan, t: nat, k: nat): Frag
    requires p.Valid() && t < p.Shared() && 1 <= k <= p.Count(t)
  {
    var part := Part(p.last[t] - (k - 1), t);
    if k == 1 then part else Add(part, Sum(p, t, k - 1))
  }

  /** Block `b` is done with shared tile `t`. */
  ghost predicate Passed(p: Plan, s: State, b: nat, t: nat)
    requires Shaped(p, s) && t < p.Shared() && p.first[t] <= b <= p.last[t]
  {
    var i := p.own + (t - p.begin[b]);
    i < s.blocks[b].at || (i == s.blocks[b].at && s.blocks[b].phase.Released?)
  }

  /** Block `b` is in its slice of shared tile `t`. */
  ghost predicate Inside(p: Plan, s: State, b: nat, t: nat)
    requires Shaped(p, s) && t < p.Shared() && p.first[t] <= b <= p.last[t]
  {
    s.blocks[b].at == p.own + (t - p.begin[b])
  }

  /** The blocks pass a tile one by one, the last along k first. */
  ghost predicate InTurn(p: Plan, s: State, t: nat)
    requires Shaped(p, s) && t < p.Shared()
  {
    && s.turns[t] <= p.Count(t)
    && forall b | p.first[t] <= b <= p.last[t] :: Passed(p, s, b, t) <==> p.Idx(b, t) < s.turns[t]
  }

  /** What a block holds in its current slice. */
  ghost predicate Holds(p: Plan, s: State, b: nat, t: nat)
    requires Shaped(p, s) && t < p.Shared() && p.first[t] <= b <= p.last[t]
  {
    var me := s.blocks[b];
    match me.phase
    case Working => true
    case Ready => me.acc == Part(b, t) && p.Count(t) > 1
    case Held => me.acc == Part(b, t) && p.Count(t) > 1 && p.Idx(b, t) == s.turns[t]
    case Added => me.acc == Sum(p, t, p.Idx(b, t) + 1) && p.Count(t) > 1 && p.Idx(b, t) == s.turns[t]
    case Released => me.acc == Sum(p, t, p.Idx(b, t) + 1)
  }

  /** How many parts the scratch tile holds: one more than were handed on, once the block whose
      turn it is has added its own. */
  ghost function InScratch(p: Plan, s: State, t: nat): nat
    requires Shaped(p, s) && t < p.Shared()
  {
    if s.turns[t] < p.Count(t) && Inside(p, s, p.last[t] - s.turns[t], t) &&
       s.blocks[p.last[t] - s.turns[t]].phase.Added?
    then s.turns[t] + 1
    else s.turns[t]
  }

  /** The lock counts the turns, and is put back to zero with the last one. */
  ghost predicate LockCounts(p: Plan, s: State, t: nat)
    requires Shaped(p, s) && t < p.Shared()
  {
    p.Count(t) > 1 ==>
      && s.locks[p.lock[t]] == (if s.turns[t] == p.Count(t) then 0 else s.turns[t])
      && (1 <= InScratch(p, s, t) < p.Count(t) ==> s.tmp[p.lock[t]] == Sum(p, t, InScratch(p, s, t)))
  }

  /** The tile is written when its writer leaves it, and not before. */
  ghost predicate Written(p: Plan, s: State, t: nat)
    requires Shaped(p, s) && t < p.Shared()
  {
    var w := p.first[t];
    s.out[t] == if s.blocks[w].at > p.own + (t - p.begin[w]) then [Sum(p, t, p.Count(t))] else []
  }

  ghost function OwnTiles(b: nat, n: nat): seq<Store> {
    if n == 0 then [] else OwnTiles(b, n - 1) + [Store(n - 1, WholeTile(b, n - 1))]
  }

  /** What a log of stores put into the tile of one round. */
  ghost function OfRound(log: seq<Store>, round: nat): seq<Frag> {
    if log == [] then [] else
      var end := log[|log| - 1];
      OfRound(log[..|log| - 1], round) + (if end.round == round then [end.sum] else [])
  }

  lemma {:induction false} OfRoundAdds(log: seq<Store>, end: Store, round: nat)
    ensures OfRound(log + [end], round) == OfRound(log, round) + (if end.round == round then [end.sum] else [])
  {
    assert (log + [end])[..|log|] == log;
  }

  lemma {:induction false} OwnTilesOnce(b: nat, n: nat, round: nat)
    ensures OfRound(OwnTiles(b, n), round) == if round < n then [WholeTile(b, round)] else []
  {
    if n > 0 {
      OwnTilesOnce(b, n - 1, round);
      OfRoundAdds(OwnTiles(b, n - 1), Store(n - 1, WholeTile(b, n - 1)), round);
    }
  }

  /** A block's own tiles are written in order. */
  ghost predicate OwnWritten(p: Plan, s: State, b: nat)
    requires Shaped(p, s) && b < p.Grid()
  {
    var done := if s.blocks[b].at < p.own then s.blocks[b].at else p.own;
    && s.whole[b] == OwnTiles(b, done)
    && (s.blocks[b].at < p.own && s.blocks[b].phase.Released? ==> s.blocks[b].acc == WholeTile(b, s.blocks[b].at))
  }

  ghost predicate Inv(p: Plan, s: State) {
    && Shaped(p, s)
    && (forall t | 0 <= t < p.Shared() :: TileInv(p, s, t))
    && (forall b | 0 <= b < p.Grid() :: OwnWritten(p, s, b))
    && (forall l | 0 <= l < p.Grid() && Unused(p, l) :: s.locks[l] == 0)
  }

  /** No shared tile goes through lock `l`. */
  ghost predicate Unused(p: Plan, l: nat)
    requires p.Valid()
  {
    forall t | 0 <= t < p.Shared() && p.Count(t) > 1 :: p.lock[t] != l
  }

  lemma InitialInv(p: Plan)
    requires p.Valid()
    ensures Inv(p, Initial(p))
  {
  }

  /** The part of the invariant that speaks of tile `t` alone. */
  ghost predicate TileInv(p: Plan, s: State, t: nat)
    requires Shaped(p, s) && t < p.Shared()
  {
    InTurn(p, s, t) && LockCounts(p, s, t) && Written(p, s, t) &&
    forall b | p.first[t] <= b <= p.last[t] && Inside(p, s, b, t) :: Holds(p, s, b, t)
  }

  /** Block `b`'s standing towards tile `t` is the same in both states. */
  ghost predicate SameStanding(p: Plan, s: State, s': State, b: nat, t: nat)
    requires Shaped(p, s) && Shaped(p, s') && t < p.Shared() && p.first[t] <= b <= p.last[t]
  {
    var i := p.own + (t - p.begin[b]);
    && (s'.blocks[b] == s.blocks[b] ||
        (i != s.blocks[b].at && (i < s.blocks[b].at <==> i < s'.blocks[b].at) &&
         (i == s'.blocks[b].at ==> s'.blocks[b].phase.Working?)))
  }

  /** A tile whose words and whose blocks did not move keeps its invariant. */
  lemma TileKept(p: Plan, s: State, s': State, u: nat)
    requires Shaped(p, s) && Shaped(p, s') && u < p.Shared() && TileInv(p, s, u)
    requires s'.turns[u] == s.turns[u] && s'.out[u] == s.out[u]
    requires p.Count(u) > 1 ==> s'.locks[p.lock[u]] == s.locks[p.lock[u]] && s'.tmp[p.lock[u]] == s.tmp[p.lock[u]]
    requires forall c | p.first[u] <= c <= p.last[u] :: SameStanding(p, s, s', c, u)
    ensures TileInv(p, s', u)
  {
    assert SameStanding(p, s, s', p.first[u], u);
    forall c | p.first[u] <= c <= p.last[u]
      ensures Passed(p, s', c, u) <==> p.Idx(c, u) < s'.turns[u]
      ensures Inside(p, s', c, u) ==> Holds(p, s', c, u)
    {
      assert SameStanding(p, s, s', c, u);
      assert Passed(p, s, c, u) <==> p.Idx(c, u) < s.turns[u];
      assert Inside(p, s, c, u) ==> Holds(p, s, c, u);
    }
    if s.turns[u] < p.Count(u) {
      assert SameStanding(p, s, s', p.last[u] - s.turns[u], u);
    }
  }

  /** Block `b`, in its slice of tile `t`, may take a step. */
  ghost predicate Acts(p: Plan, s: State, b: nat, t: nat)
    requires Shaped(p, s)
  {
    && Enabled(p, s, b) && s.blocks[b].at >= p.own && t == p.TileAt(b, s.blocks[b].at)
    && TileInv(p, s, t) && Shaped(p, StepShared(p, s, b, t))
  }

  /** The block that moves is not past the tile, unless it has handed on the lock already. */
  lemma TurnOf(p: Plan, s: State, b: nat, t: nat)
    requires Shaped(p, s) && Acts(p, s, b, t)
    ensures Inside(p, s, b, t) && Holds(p, s, b, t)
    ensures s.blocks[b].phase.Released? <==> p.Idx(b, t) < s.turns[t]
    ensures s.blocks[b].phase.Ready? ==> p.Idx(b, t) == s.turns[t]
  {
    assert Inside(p, s, b, t);
    assert Passed(p, s, b, t) <==> p.Idx(b, t) < s.turns[t];
  }

  lemma StepTurns(p: Plan, s: State, b: nat, t: nat)
    requires Shaped(p, s) && Acts(p, s, b, t)
    ensures InTurn(p, StepShared(p, s, b, t), t)
  {
    var s' := StepShared(p, s, b, t);
    TurnOf(p, s, b, t);
    forall c | p.first[t] <= c <= p.last[t]
      ensures Passed(p, s', c, t) <==> p.Idx(c, t) < s'.turns[t]
    {
      assert Passed(p, s, c, t) <==> p.Idx(c, t) < s.turns[t];
    }
  }

  lemma StepHolds(p: Plan, s: State, b: nat, t: nat, c: nat)
    requires Shaped(p, s) && Acts(p, s, b, t) && p.first[t] <= c <= p.last[t]
    requires Inside(p, StepShared(p, s, b, t), c, t)
    ensures Holds(p, StepShared(p, s, b, t), c, t)
  {
    TurnOf(p, s, b, t);
    assert Inside(p, s, c, t) ==> Holds(p, s, c, t);
  }

  lemma StepLock(p: Plan, s: State, b: nat, t: nat)
    requires Shaped(p, s) && Acts(p, s, b, t)
    ensures LockCounts(p, StepShared(p, s, b, t), t)
  {
    var s' := StepShared(p, s, b, t);
    TurnOf(p, s, b, t);
    if s'.turns[t] < p.Count(t) {
      var next := p.last[t] - s'.turns[t];
      assert Inside(p, s, next, t) ==> Holds(p, s, next, t);
    }
  }

  /** One block's step within its slice of tile `t` keeps what is said of `t`. */
  lemma StepTileInv(p: Plan, s: State, b: nat, t: nat)
    requires Shaped(p, s) && Acts(p, s, b, t)
    ensures TileInv(p, StepShared(p, s, b, t), t)
  {
    StepTurns(p, s, b, t);
    StepLock(p, s, b, t);
    StepWritten(p, s, b, t);
    forall c | p.first[t] <= c <= p.last[t] && Inside(p, StepShared(p, s, b, t), c, t)
      ensures Holds(p, StepShared(p, s, b, t), c, t)
    {
      StepHolds(p, s, b, t, c);
    }
  }

  lemma StepWritten(p: Plan, s: State, b: nat, t: nat)
    requires Shaped(p, s) && Acts(p, s, b, t)
    ensures Written(p, StepShared(p, s, b, t), t)
  {
    TurnOf(p, s, b, t);
  }

  /** A tile the stepping block is not in. */
  lemma StandsTheSame(p: Plan, s: State, b: nat, u: nat, c: nat)
    requires Shaped(p, s) && Enabled(p, s, b) && u < p.Shared() && p.first[u] <= c <= p.last[u]
    requires s.blocks[b].at >= p.own ==> u != p.TileAt(b, s.blocks[b].at)
    requires Shaped(p, Step(p, s, b))
    ensures SameStanding(p, s, Step(p, s, b), c, u)
  {}

  lemma StepOtherTile(p: Plan, s: State, b: nat, u: nat)
    requires Shaped(p, s) && Enabled(p, s, b) && u < p.Shared() && TileInv(p, s, u)
    requires s.blocks[b].at >= p.own ==> u != p.TileAt(b, s.blocks[b].at)
    requires Shaped(p, Step(p, s, b))
    ensures TileInv(p, Step(p, s, b), u)
  {
    var s' := Step(p, s, b);
    forall c | p.first[u] <= c <= p.last[u]
      ensures SameStanding(p, s, s', c, u)
    {
      StandsTheSame(p, s, b, u, c);
    }
    TileKept(p, s, s', u);
  }

  lemma StepShaped(p: Plan, s: State, b: nat)
    requires Shaped(p, s) && Enabled(p, s, b)
    ensures Shaped(p, Step(p, s, b))
  {
  }

  lemma StepOwn(p: Plan, s: State, b: nat)
    requires Inv(p, s) && Enabled(p, s, b) && Shaped(p, Step(p, s, b))
    ensures forall c | 0 <= c < p.Grid() :: OwnWritten(p, Step(p, s, b), c)
  {
    forall c | 0 <= c < p.Grid()
      ensures OwnWritten(p, Step(p, s, b), c)
    {
      assert OwnWritten(p, s, c);
    }
  }

  lemma StepKeepsInv(p: Plan, s: State, b: nat)
    requires Inv(p, s) && Enabled(p, s, b)
    ensures Inv(p, Step(p, s, b))
  {
    StepShaped(p, s, b);
    StepOwn(p, s, b);
    forall u | 0 <= u < p.Shared()
      ensures TileInv(p, Step(p, s, b), u)
    {
      assert TileInv(p, s, u);
      if s.blocks[b].at >= p.own && u == p.TileAt(b, s.blocks[b].at) {
        StepTileInv(p, s, b, u);
      } else {
        StepOtherTile(p, s, b, u);
      }
    }
  }

  // ----- Whole runs -----

  /** `schedule` names the block that moves, step by step; every one of them must be able to. */
  ghost predicate Runs(p: Plan, s: State, schedule: seq<nat>)
    decreases |schedule|
  {
    && Shaped(p, s)
    && (schedule != [] ==> Enabled(p, s, schedule[0]) && Runs(p, Step(p, s, schedule[0]), schedule[1..]))
  }

  ghost function After(p: Plan, s: State, schedule: seq<nat>): (s': State)
    requires Runs(p, s, schedule)
    ensures Shaped(p, s')
    decreases |schedule|
  {
    if schedule == [] then s else After(p, Step(p, s, schedule[0]), schedule[1..])
  }

  lemma {:induction false} RunKeepsInv(p: Plan, s: State, schedule: seq<nat>)
    requires Inv(p, s) && Runs(p, s, schedule)
    ensures Inv(p, After(p, s, schedule))
    decreases |schedule|
  {
    if schedule != [] {
      StepKeepsInv(p, s, schedule[0]);
      RunKeepsInv(p, Step(p, s, schedule[0]), schedule[1..]);
    }
  }

  ghost predicate Done(p: Plan, s: State, b: nat)
    requires Shaped(p, s) && b < p.Grid()
  {
    s.blocks[b].at == p.Slices(b)
  }

  ghost predicate Finished(p: Plan, s: State)
    requires Shaped(p, s)
  {
    forall b | 0 <= b < p.Grid() :: Done(p, s, b)
  }

  /** The last block that is not done; every later one is. */
  lemma LastUnfinished(p: Plan, s: State, n: nat) returns (b: nat)
    requires Shaped(p, s) && n <= p.Grid()
    requires exists c: nat :: c < n && !Done(p, s, c)
    requires forall c: nat | n <= c < p.Grid() :: Done(p, s, c)
    ensures b < p.Grid() && !Done(p, s, b)
    ensures forall c: nat | b < c < p.Grid() :: Done(p, s, c)
  {
    b := n - 1;
    if Done(p, s, b) {
      b := LastUnfinished(p, s, n - 1);
    }
  }

  /** Blocks only ever wait for later ones, so an unfinished state is never stuck: the last
      unfinished block can move. */
  lemma NeverStuck(p: Plan, s: State)
    requires Inv(p, s) && !Finished(p, s)
    ensures exists b: nat :: Enabled(p, s, b)
  {
    var b := LastUnfinished(p, s, p.Grid());
    if s.blocks[b].at >= p.own && s.blocks[b].phase.Ready? {
      var t := p.TileAt(b, s.blocks[b].at);
      assert TileInv(p, s, t) && InTurn(p, s, t);
      assert Inside(p, s, b, t) && !Passed(p, s, b, t);
      if b < p.last[t] {
        assert Done(p, s, b + 1) && Passed(p, s, b + 1, t);
      }
    }
    assert Enabled(p, s, b);
  }

  /** The steps a block still has before it: five to a slice. */
  ghost function StepsLeft(p: Plan, s: State, b: nat): nat
    requires Shaped(p, s) && b < p.Grid()
  {
    if Done(p, s, b) then 0 else 5 * (p.Slices(b) - s.blocks[b].at) - s.blocks[b].phase.Rank()
  }

  ghost function TotalLeft(p: Plan, s: State, n: nat): nat
    requires Shaped(p, s) && n <= p.Grid()
  {
    if n == 0 then 0 else TotalLeft(p, s, n - 1) + StepsLeft(p, s, n - 1)
  }

  lemma StepCosts(p: Plan, s: State, b: nat)
    requires Inv(p, s) && Enabled(p, s, b) && Shaped(p, Step(p, s, b))
    ensures StepsLeft(p, Step(p, s, b), b) < StepsLeft(p, s, b)
  {
    if s.blocks[b].at >= p.own {
      var t := p.TileAt(b, s.blocks[b].at);
      assert TileInv(p, s, t) && Inside(p, s, b, t);
      assert Holds(p, s, b, t);
    }
  }

  lemma {:induction false} StepUsesWork(p: Plan, s: State, b: nat, n: nat)
    requires Inv(p, s) && Enabled(p, s, b) && Shaped(p, Step(p, s, b)) && n <= p.Grid()
    ensures TotalLeft(p, Step(p, s, b), n) <= TotalLeft(p, s, n) - (if b < n then 1 else 0)
  {
    if n > 0 {
      StepUsesWork(p, s, b, n - 1);
      if n - 1 == b {
        StepCosts(p, s, b);
      }
    }
  }

  lemma {:induction false} RunsEnd(p: Plan, s: State, schedule: seq<nat>)
    requires Inv(p, s) && Runs(p, s, schedule)
    ensures |schedule| <= TotalLeft(p, s, p.Grid())
    decreases |schedule|
  {
    if schedule != [] {
      StepKeepsInv(p, s, schedule[0]);
      StepUsesWork(p, s, schedule[0], p.Grid());
      RunsEnd(p, Step(p, s, schedule[0]), schedule[1..]);
    }
  }

  /** No two blocks are ever between acquiring and releasing the same lock. */
  lemma OneHolder(p: Plan, s: State, t: nat, b: nat, c: nat)
    requires Inv(p, s) && t < p.Shared() && p.first[t] <= b <= p.last[t] && p.first[t] <= c <= p.last[t]
    requires Inside(p, s, b, t) && s.blocks[b].phase in {Held, Added}
    requires Inside(p, s, c, t) && s.blocks[c].phase in {Held, Added}
    ensures b == c
  {
    assert TileInv(p, s, t);
    assert Holds(p, s, b, t) && Holds(p, s, c, t);
  }

  /** At any point of any run, a tile was written at most once, and then with the fold of its parts
      in slice order. */
  lemma WrittenOnce(p: Plan, schedule: seq<nat>, t: nat)
    requires p.Valid() && Runs(p, Initial(p), schedule) && t < p.Shared()
    ensures After(p, Initial(p), schedule).out[t] in {[], [Sum(p, t, p.Count(t))]}
  {
    InitialInv(p);
    RunKeepsInv(p, Initial(p), schedule);
    assert TileInv(p, After(p, Initial(p), schedule), t);
  }

  /** Every run ends, whatever the interleaving, and a run that can go no further has written every
      tile exactly once, the shared ones with the same fold of their parts as any other run, and has
      left every lock at zero. */
  lemma EveryRunFinishes(p: Plan, schedule: seq<nat>)
    requires p.Valid() && Runs(p, Initial(p), schedule)
    requires forall b: nat :: !Enabled(p, After(p, Initial(p), schedule), b)
    ensures |schedule| <= TotalLeft(p, Initial(p), p.Grid())
    ensures
      var s := After(p, Initial(p), schedule);
      && Finished(p, s)
      && (forall t | 0 <= t < p.Shared() :: s.out[t] == [Sum(p, t, p.Count(t))])
      && (forall b | 0 <= b < p.Grid() :: s.whole[b] == OwnTiles(b, p.own))
      && (forall l | 0 <= l < p.Grid() :: s.locks[l] == 0)
  {
    InitialInv(p);
    RunKeepsInv(p, Initial(p), schedule);
    RunsEnd(p, Initial(p), schedule);
    var s := After(p, Initial(p), schedule);
    if !Finished(p, s) {
      NeverStuck(p, s);
    }
    FinishedClean(p, s);
  }

  lemma FinishedClean(p: Plan, s: State)
    requires Inv(p, s) && Finished(p, s)
    ensures forall t | 0 <= t < p.Shared() :: s.out[t] == [Sum(p, t, p.Count(t))]
    ensures forall b | 0 <= b < p.Grid() :: s.whole[b] == OwnTiles(b, p.own)
    ensures forall l | 0 <= l < p.Grid() :: s.locks[l] == 0
  {
    forall t | 0 <= t < p.Shared()
      ensures s.out[t] == [Sum(p, t, p.Count(t))]
      ensures p.Count(t) > 1 ==> s.locks[p.lock[t]] == 0
    {
      assert TileInv(p, s, t);
      assert Done(p, s, p.first[t]);
      assert Passed(p, s, p.first[t], t);
    }
    forall b | 0 <= b < p.Grid()
      ensures s.whole[b] == OwnTiles(b, p.own)
    {
      assert Done(p, s, b) && OwnWritten(p, s, b);
    }
    forall l | 0 <= l < p.Grid()
      ensures s.locks[l] == 0
    {
      assert Unused(p, l) ==> s.locks[l] == 0;
    }
  }
}

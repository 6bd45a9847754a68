/**
 The inner loop of the kernel: a four-stage ring of asynchronous copies from global to shared
 memory, double-buffered registers behind it, and the scales and zero points riding along on a
 slower schedule. What it must come down to is the plain loop over the k-blocks of a slice, each
 multiplied with the scale and zero point of its own group.
 */
module StreamKPipeline {
  import opened DivMod

  const STAGES := 4
  const GROUP_BLOCKS := 8

  /** What a slot of shared memory holds: nothing known, a copy that may land at any moment, or data. */
  datatype Slot<T> = Stale | InFlight(data: T) | Landed(data: T)
  {
    function Land(): Slot<T> {
      match this case InFlight(d) => Landed(d) case _ => this
    }
  }

  /** The k-blocks of the activation and of the weights that a stage was filled from. */
  datatype Tile = Tile(a: nat, b: nat)

  /** One batch of copies: nothing on the wind-down, or one stage, with its scales when it opens a
      group. */
  datatype Batch = Empty | Copies(pipe: nat, opensGroup: bool)

  /** A register: whatever was read too early or from the wrong place is `Garbage`. */
  datatype Reg<T> = Garbage | Value(v: T)

  /** One 16-wide step of a k-block. */
  datatype Step = Step(a: nat, b: nat, step: nat)

  /** What one multiply consumes. */
  datatype Operand = Operand(a: nat, b: nat, step: nat, scale: nat, zero: nat)

  function Read<T>(s: Slot<T>): Reg<T> {
    match s case Landed(d) => Value(d) case _ => Garbage
  }

  /** The shape of the kernel: how many 16-wide blocks of k a tile has, and how many of them one warp
      walks. */
  ghost predicate ValidShape(threadKBlocks: nat, wrIters: nat) {
    threadKBlocks > 0 && GROUP_BLOCKS % threadKBlocks == 0 && 2 <= wrIters <= threadKBlocks && wrIters % 2 == 0
  }

  /** How many tiles of k share one scale. */
  function TilesPerGroup(threadKBlocks: nat): nat
    requires threadKBlocks > 0
  {
    GROUP_BLOCKS / threadKBlocks
  }

  /** A group spans one, two or four tiles, so groups and ring revolutions line up. */
  lemma GroupsFitTheRing(threadKBlocks: nat, wrIters: nat)
    requires ValidShape(threadKBlocks, wrIters)
    ensures TilesPerGroup(threadKBlocks) in {1, 2, 4}
  {
    assert threadKBlocks in {2, 4, 8};
  }

  // ----- The plain loop -----

  /** The scale group of absolute row `r`, and whether a tile number opens a group, for groups of one,
      two or four tiles. `GroupIs` ties them to the source's own arithmetic. */
  function GroupOf(r: nat, g: nat): nat {
    if g == 1 then r else if g == 2 then r / 2 else r / 4
  }

  predicate Opens(j: nat, g: nat) {
    g == 1 || (g == 2 && j % 2 == 0) || (g == 4 && j % 4 == 0)
  }

  lemma GroupIs(threadKBlocks: nat, wrIters: nat, r: nat)
    requires ValidShape(threadKBlocks, wrIters)
    ensures var g := TilesPerGroup(threadKBlocks);
            && GroupOf(r, g) == threadKBlocks * r / GROUP_BLOCKS
            && (Opens(r, g) <==> r % g == 0)
  {
    GroupsFitTheRing(threadKBlocks, wrIters);
    if threadKBlocks == 8 {
    } else if threadKBlocks == 4 {
    } else {
      assert threadKBlocks == 2;
    }
  }

  lemma OpensIs(j: nat, g: nat)
    requires g in {1, 2, 4}
    ensures Opens(j, g) <==> j % g == 0
  {
    if g == 1 {
    } else if g == 2 {
    } else {
    }
  }

  /** What the plain loop has multiplied before step `k` of tile `t`: tiles in order, steps in order,
      each with the scale group its absolute row belongs to. */
  ghost function Plain(row: nat, g: nat, wrIters: nat, t: nat, k: nat): seq<Operand>
    decreases t, k
  {
    if k > 0 then Plain(row, g, wrIters, t, k - 1) + [Operand(row + t, row + t, k - 1, GroupOf(row + t, g), GroupOf(row + t, g))]
    else if t > 0 then Plain(row, g, wrIters, t - 1, wrIters)
    else []
  }

  /** The plain loop over `n` tiles multiplies every step of every tile of the slice, each with the
      scale and zero point of the group of 128 weights it lies in. */
  lemma {:induction false} PlainIs(threadKBlocks: nat, wrIters: nat, row: nat, n: nat, k: nat, t: nat, j: nat)
    requires ValidShape(threadKBlocks, wrIters) && k <= wrIters
    requires j < wrIters && (t < n || (t == n && j < k))
    ensures
      var group := threadKBlocks * (row + t) / GROUP_BLOCKS;
      var all := Plain(row, TilesPerGroup(threadKBlocks), wrIters, n, k);
      |all| == n * wrIters + k && 0 <= t * wrIters + j < |all| &&
      all[t * wrIters + j] == Operand(row + t, row + t, j, group, group)
    decreases n, k
  {
    PlainLength(row, TilesPerGroup(threadKBlocks), wrIters, n, k);
    GroupIs(threadKBlocks, wrIters, row + t);
    if k > 0 {
      if t < n || j < k - 1 {
        PlainIs(threadKBlocks, wrIters, row, n, k - 1, t, j);
      } else {
        PlainLength(row, TilesPerGroup(threadKBlocks), wrIters, n, k - 1);
      }
    } else {
      PlainIs(threadKBlocks, wrIters, row, n - 1, wrIters, t, j);
    }
  }

  lemma {:induction false} PlainLength(row: nat, g: nat, wrIters: nat, n: nat, k: nat)
    ensures |Plain(row, g, wrIters, n, k)| == n * wrIters + k
    decreases n, k
  {
    if k > 0 {
      PlainLength(row, g, wrIters, n, k - 1);
    } else if n > 0 {
      PlainLength(row, g, wrIters, n - 1, wrIters);
      assert n * wrIters == (n - 1) * wrIters + wrIters;
    }
  }

  /** The tiles `row..row + n`, each once. */
  ghost function Run(row: nat, n: nat): (r: seq<Tile>)
    ensures |r| == n && forall i | 0 <= i < n :: r[i] == Tile(row + i, row + i)
  {
    if n == 0 then [] else Run(row, n - 1) + [Tile(row + n - 1, row + n - 1)]
  }

  function Least(x: nat, y: nat): nat { if x < y then x else y }

  /** The groups opened by the first `m` tiles of a slice. */
  function Opened(m: nat, g: nat): nat {
    if g == 1 then m else if g == 2 then (m + 1) / 2 else (m + 3) / 4
  }

  function SlotFor<T>(landed: bool, data: T): Slot<T> {
    if landed then Landed(data) else InFlight(data)
  }

  function BatchFor(i: nat, n: nat, g: nat): Batch {
    if i < n then Copies(i % STAGES, Opens(i % STAGES, g)) else Empty
  }

  // ----- Shared memory and the copies under way -----

  /** The four stages, the scales and zero points that travel with them, the batches of copies not
      known to have landed (oldest first), where the next reads of global memory go (in tiles of k
      and in groups), and every tile read so far in this slice. */
  datatype Memory = Memory(tiles: seq<Slot<Tile>>, scales: seq<Slot<nat>>, zeros: seq<Slot<nat>>,
                           batches: seq<Batch>, bRd: nat, sRd: nat, zpRd: nat, fetched: seq<Tile>)
  {
    ghost predicate Wired() {
      && |tiles| == |scales| == |zeros| == STAGES
      && forall i | 0 <= i < |batches| && batches[i].Copies? :: batches[i].pipe < STAGES
    }

    /** One stage's loads start; the stage's old contents are gone from here on. */
    function Issue(pipe: nat, a: nat, opensGroup: bool): Memory
      requires Wired() && pipe < STAGES
    {
      var next := this.(tiles := tiles[pipe := InFlight(Tile(a, bRd))], bRd := bRd + 1,
                        fetched := fetched + [Tile(a, bRd)], batches := batches + [Copies(pipe, opensGroup)]);
      if opensGroup then
        next.(scales := scales[pipe := InFlight(sRd)], sRd := sRd + 1,
              zeros := zeros[pipe := InFlight(zpRd)], zpRd := zpRd + 1)
      else next
    }

    /** The oldest batch lands. */
    function Land(): Memory
      requires Wired() && batches != []
    {
      var rest := this.(batches := batches[1..]);
      match batches[0]
      case Empty => rest
      case Copies(pipe, opensGroup) =>
        var next := rest.(tiles := tiles[pipe := tiles[pipe].Land()]);
        if opensGroup then
          next.(scales := scales[pipe := scales[pipe].Land()], zeros := zeros[pipe := zeros[pipe].Land()])
        else next
    }

    /** The oldest batches land until no more than `keep` are outstanding. */
    function LandUntil(keep: nat): Memory
      requires Wired()
      decreases |batches|
    {
      if |batches| <= keep then this else Land().LandUntil(keep)
    }
  }

  /** The ring after `issued` batches, of which the first `landed` are known to have arrived, in a
      slice of `n` tiles that starts at `row`: the last four tiles asked for are where the reader will
      look for them, and no others were asked for. */
  ghost predicate Ring(m: Memory, g: nat, row: nat, n: nat, issued: nat, landed: nat) {
    && Asked(m, g, row, Least(issued, n)) && landed <= issued
    && |m.batches| == issued - landed
    && (forall i | 0 <= i < |m.batches| :: m.batches[i] == BatchFor(landed + i, n, g))
    && (forall j | 0 <= j < Least(issued, n) && issued - STAGES <= j :: InStage(m, g, row, j, landed))
  }

  /** The global reads stand past the tiles that were asked for, each once and in order. */
  ghost predicate Asked(m: Memory, g: nat, row: nat, asked: nat) {
    && m.Wired() && g in {1, 2, 4} && Opens(row, g)
    && m.bRd == row + asked && m.sRd == m.zpRd == GroupOf(row, g) + Opened(asked, g)
    && m.fetched == Run(row, asked)
  }

  /** The stage of tile `j` holds it, or is about to. */
  ghost predicate InStage(m: Memory, g: nat, row: nat, j: nat, landed: nat)
    requires m.Wired()
  {
    && m.tiles[j % STAGES] == SlotFor(j < landed, Tile(row + j, row + j))
    && (Opens(j, g) ==> m.scales[j % STAGES] == m.zeros[j % STAGES] == SlotFor(j < landed, GroupOf(row + j, g)))
  }

  lemma StagesApart(i: nat, j: nat)
    requires i < j < i + STAGES
    ensures i % STAGES != j % STAGES
  {}

  lemma IssueAsks(m: Memory, g: nat, row: nat, issued: nat)
    requires Asked(m, g, row, issued)
    ensures
      var pipe := issued % STAGES;
      Asked(m.Issue(pipe, row + issued, Opens(pipe, g)), g, row, issued + 1)
  {
    OpensWith(issued, g, row);
  }

  /** Asking for the next tile keeps the ring: what it overwrites is a tile four behind. */
  lemma IssueKeepsRing(m: Memory, g: nat, row: nat, n: nat, issued: nat, landed: nat)
    requires Ring(m, g, row, n, issued, landed) && issued < n
    ensures
      var pipe := issued % STAGES;
      Ring(m.Issue(pipe, row + issued, Opens(pipe, g)), g, row, n, issued + 1, landed)
  {
    var pipe := issued % STAGES;
    var next := m.Issue(pipe, row + issued, Opens(pipe, g));
    OpensWith(issued, g, row);
    IssueAsks(m, g, row, issued);
    forall j | 0 <= j < issued + 1 && issued + 1 - STAGES <= j
      ensures InStage(next, g, row, j, landed)
    {
      IssueKeepsStage(m, g, row, n, issued, landed, j);
    }
  }

  lemma IssueKeepsStage(m: Memory, g: nat, row: nat, n: nat, issued: nat, landed: nat, j: nat)
    requires Ring(m, g, row, n, issued, landed) && issued < n && j <= issued < j + STAGES
    ensures
      var pipe := issued % STAGES;
      InStage(m.Issue(pipe, row + issued, Opens(pipe, g)), g, row, j, landed)
  {
    if j < issued {
      assert InStage(m, g, row, j, landed);
      StagesApart(j, issued);
    } else {
      OpensWith(issued, g, row);
    }
  }

  lemma EmptyKeepsRing(m: Memory, g: nat, row: nat, n: nat, issued: nat, landed: nat)
    requires Ring(m, g, row, n, issued, landed) && issued >= n
    ensures Ring(m.(batches := m.batches + [Empty]), g, row, n, issued + 1, landed)
  {
    var next := m.(batches := m.batches + [Empty]);
    forall j | 0 <= j < n && issued + 1 - STAGES <= j
      ensures InStage(next, g, row, j, landed)
    {
      assert InStage(m, g, row, j, landed);
    }
  }

  /** The oldest copies land where their tile is looked for. */
  lemma LandKeepsStage(m: Memory, g: nat, row: nat, n: nat, issued: nat, landed: nat, j: nat)
    requires Ring(m, g, row, n, issued, landed) && landed < issued <= landed + STAGES
    requires j < Least(issued, n) && issued <= j + STAGES
    ensures InStage(m.Land(), g, row, j, landed + 1)
  {
    assert m.batches[0] == BatchFor(landed, n, g);
    OpensWith(landed, g, row);
    assert InStage(m, g, row, j, landed);
    if j < landed {
      StagesApart(j, landed);
    } else if landed < j {
      StagesApart(landed, j);
    }
  }

  lemma LandKeepsRing(m: Memory, g: nat, row: nat, n: nat, issued: nat, landed: nat)
    requires Ring(m, g, row, n, issued, landed) && landed < issued <= landed + STAGES
    ensures Ring(m.Land(), g, row, n, issued, landed + 1)
  {
    assert m.batches[0] == BatchFor(landed, n, g);
    OpensWith(landed, g, row);
    var next, more := m.Land(), landed + 1;
    forall j | 0 <= j < Least(issued, n) && issued - STAGES <= j
      ensures InStage(next, g, row, j, more)
    {
      LandKeepsStage(m, g, row, n, issued, landed, j);
    }
  }

  lemma {:induction false} AllLand(m: Memory)
    requires m.Wired()
    ensures m.LandUntil(0).batches == [] && m.LandUntil(0).fetched == m.fetched
    decreases |m.batches|
  {
    if m.batches != [] {
      AllLand(m.Land());
    }
  }

  /** What a reader finds in the stage of a tile that has landed. */
  lemma LandedTile(m: Memory, g: nat, row: nat, n: nat, issued: nat, landed: nat, j: nat)
    requires Ring(m, g, row, n, issued, landed) && j < landed && j < n && issued - STAGES <= j
    ensures Read(m.tiles[j % STAGES]) == Value(Tile(row + j, row + j))
    ensures Opens(j % STAGES, g) == Opens(j, g)
    ensures Opens(j, g) ==> Read(m.scales[j % STAGES]) == Read(m.zeros[j % STAGES]) == Value(GroupOf(row + j, g))
  {
    assert InStage(m, g, row, j, landed);
    OpensWith(j, g, row);
  }

  /** Stage numbers and tile numbers open groups together. */
  lemma OpensWith(j: nat, g: nat, row: nat)
    requires g in {1, 2, 4} && Opens(row, g)
    ensures Opens(j % STAGES, g) == Opens(j, g)
    ensures Opened(j + 1, g) == Opened(j, g) + (if Opens(j, g) then 1 else 0)
    ensures Opens(j, g) ==> GroupOf(row + j, g) == GroupOf(row, g) + Opened(j, g)
    ensures !Opens(j + 1, g) ==> GroupOf(row + j + 1, g) == GroupOf(row + j, g)
  {
  }

  // ----- The kernel's loop -----

  class Pipeline {
    const threadKBlocks: nat
    const wrIters: nat
    const g: nat
    var mem: Memory
    var aRd: nat
    /** Double-buffered fragments, scales and packed zero points, and the unpacked zero point. */
    var frag: seq<Reg<Step>>
    var fragS: seq<Reg<nat>>
    var fragQzp: seq<Reg<nat>>
    var fragZp: Reg<nat>
    /** The accumulator, as the operands it has taken in, and whether one of them was not loaded. */
    var acc: seq<Operand>
    var spoiled: bool

    ghost predicate Wired()
      reads this
    {
      && ValidShape(threadKBlocks, wrIters) && g == TilesPerGroup(threadKBlocks) && g in {1, 2, 4}
      && mem.Wired()
      && |frag| == |fragS| == |fragQzp| == 2
    }

    /** Nothing is loaded yet, and nothing is under way. */
    constructor (threadKBlocks: nat, wrIters: nat)
      requires ValidShape(threadKBlocks, wrIters)
      ensures Wired() && mem.batches == []
      ensures this.threadKBlocks == threadKBlocks && this.wrIters == wrIters && g == TilesPerGroup(threadKBlocks)
    {
      GroupsFitTheRing(threadKBlocks, wrIters);
      this.threadKBlocks, this.wrIters, g := threadKBlocks, wrIters, TilesPerGroup(threadKBlocks);
      mem := Memory([Stale, Stale, Stale, Stale], [Stale, Stale, Stale, Stale], [Stale, Stale, Stale, Stale],
                    [], 0, 0, 0, []);
      aRd, frag, fragS := 0, [Garbage, Garbage], [Garbage, Garbage];
      fragQzp, fragZp, acc, spoiled := [Garbage, Garbage], Garbage, [], false;
    }

    /** Start one stage's worth of loads, or an empty batch. */
    method FetchToShared(pipe: nat, aOff: nat, pred: bool)
      requires Wired() && pipe < STAGES
      modifies this`mem
      ensures Wired()
      ensures mem == if pred then old(mem).Issue(pipe, aRd + aOff, Opens(pipe, g))
                     else old(mem).(batches := old(mem).batches + [Empty])
    {
      OpensIs(pipe, g);
      var batch := Empty;
      if pred {
        var tile := Tile(aRd + aOff, mem.bRd);
        mem := mem.(tiles := mem.tiles[pipe := InFlight(tile)], fetched := mem.fetched + [tile]);
        mem := mem.(bRd := mem.bRd + 1);
        batch := Copies(pipe, false);
        if pipe % g == 0 {
          mem := mem.(scales := mem.scales[pipe := InFlight(mem.sRd)]);
          mem := mem.(sRd := mem.sRd + 1);
          mem := mem.(zeros := mem.zeros[pipe := InFlight(mem.zpRd)]);
          mem := mem.(zpRd := mem.zpRd + 1);
          batch := Copies(pipe, true);
        }
      }
      mem := mem.(batches := mem.batches + [batch]);
    }

    /** Wait until at most `keep` batches are outstanding. */
    method CpAsyncWait(keep: nat)
      requires Wired()
      modifies this`mem
      ensures Wired()
      ensures mem == old(mem).LandUntil(keep)
    {
      while |mem.batches| > keep
        invariant Wired() && mem.LandUntil(keep) == old(mem).LandUntil(keep)
        decreases |mem.batches|
      {
        mem := mem.Land();
      }
    }

    /** Everything step `k` of a stage needs: the fragments, the scales and the zero points. One past
        the last step is the first step of the stage after it. */
    method FetchStepToRegisters(k: nat, fullPipe: nat)
      requires Wired() && k <= wrIters
      modifies this`frag, this`fragS, this`fragQzp
      ensures Wired()
      ensures var pipe := fullPipe % STAGES;
              var step := if k == wrIters then 0 else k;
              && frag == old(frag)[k % 2 := StepOf(Read(mem.tiles[pipe]), step)]
              && fragS == (if !Opens(pipe, g) then old(fragS)
                           else if step == 0 then old(fragS)[k % 2 := Read(mem.scales[pipe])]
                           else old(fragS)[1 := old(fragS)[0]])
              && fragQzp == (if Opens(pipe, g) && step == 0
                             then old(fragQzp)[k % 2 := Read(mem.zeros[pipe])] else old(fragQzp))
    {
      var pipe := fullPipe % STAGES;
      OpensIs(pipe, g);
      FloorIs(k, wrIters, if k == wrIters then 1 else 0);
      var step := k % wrIters;
      frag := frag[k % 2 := StepOf(Read(mem.tiles[pipe]), step)];
      if pipe % g == 0 {
        QuotRem(pipe, g);
        if k % wrIters == 0 {
          fragS := fragS[k % 2 := Read(mem.scales[g * Quot(pipe, g)])];
        } else {
          fragS := fragS[1 := fragS[0]];
        }
      }
      if pipe % g == 0 && k % wrIters == 0 {
        QuotRem(pipe, g);
        fragQzp := fragQzp[k % 2 := Read(mem.zeros[g * Quot(pipe, g)])];
      }
    }

    /** One step of k: unpack the zero point if the group is new, then multiply. */
    method Matmul(k: nat, pipe: nat)
      requires Wired()
      modifies this`fragZp, this`acc, this`spoiled
      ensures Wired()
      ensures fragZp == if k == 0 && Opens(pipe, g) then fragQzp[0] else old(fragZp)
      ensures var f, s := frag[k % 2], fragS[k % 2];
              if f.Value? && s.Value? && fragZp.Value? then
                acc == old(acc) + [Operand(f.v.a, f.v.b, f.v.step, s.v, fragZp.v)] && spoiled == old(spoiled)
              else spoiled
    {
      var buf := k % 2;
      OpensIs(pipe, g);
      var isNewZp := (GROUP_BLOCKS < wrIters || k == 0) && pipe % g == 0;
      if isNewZp {
        fragZp := fragQzp[buf];
      }
      var f, s := frag[buf], fragS[buf];
      if f.Value? && s.Value? && fragZp.Value? {
        acc := acc + [Operand(f.v.a, f.v.b, f.v.step, s.v, fragZp.v)];
      } else {
        spoiled := true;
      }
    }

    /** The registers before step `k` of tile `t` of the slice multiplies. */
    ghost predicate Loaded(row: nat, t: nat, k: nat)
      requires Wired()
      reads this
    {
      var group := Value(GroupOf(row + t, g));
      && frag[k % 2] == Value(Step(row + t, row + t, k))
      && fragS[0] == group
      && (Opens(t, g) ==> fragQzp[0] == group)
      && (k > 0 || !Opens(t, g) ==> fragS[1] == group && fragZp == group)
    }

    /** The innermost body: the next step's operands are read, the ring moves on two steps from the
        end of the tile, and step `k` multiplies. */
    method StepOnce(k: nat, stage: nat, sliceIters: nat, ghost row: nat, ghost n: nat, ghost t: nat)
      requires Wired() && k < wrIters && t < n && stage == t % STAGES && sliceIters == n - t
      requires aRd + stage == row + t + (STAGES - 1)
      requires Ring(mem, g, row, n, t + (if k < wrIters - 1 then 3 else 4), t + (if k < wrIters - 1 then 1 else 2))
      requires Loaded(row, t, k)
      modifies this`mem, this`frag, this`fragS, this`fragQzp, this`fragZp, this`acc, this`spoiled
      ensures Wired()
      ensures Ring(mem, g, row, n, t + (if k < wrIters - 2 then 3 else 4), t + (if k < wrIters - 2 then 1 else 2))
      ensures k + 1 < wrIters ==> Loaded(row, t, k + 1)
      ensures k + 1 == wrIters && t + 1 < n ==> Loaded(row, t + 1, 0)
      ensures acc == old(acc) + [Operand(row + t, row + t, k, GroupOf(row + t, g), GroupOf(row + t, g))]
      ensures spoiled == old(spoiled)
    {
      OpensWith(t, g, row);
      FetchAhead(k, stage, row, n, t);
      if k == wrIters - 2 {
        MoveOn(stage, sliceIters, row, n, t);
      }
      Matmul(k, stage);
    }

    /** What the registers hold once the next step's operands are read as well. */
    ghost predicate LoadedAhead(row: nat, n: nat, t: nat, k: nat)
      requires Wired()
      reads this
    {
      var group := Value(GroupOf(row + t, g));
      && frag[k % 2] == Value(Step(row + t, row + t, k)) && fragS[k % 2] == group
      && (k == 0 && Opens(t, g) ==> fragQzp[0] == group)
      && (k + 1 < wrIters ==>
            && frag[(k + 1) % 2] == Value(Step(row + t, row + t, k + 1))
            && fragS[0] == fragS[1] == group && (Opens(t, g) ==> fragQzp[0] == group))
      && (k + 1 == wrIters && t + 1 < n ==>
            var after := Value(GroupOf(row + t + 1, g));
            && frag[0] == Value(Step(row + t + 1, row + t + 1, 0))
            && fragS[0] == after && (Opens(t + 1, g) ==> fragQzp[0] == after)
            && (!Opens(t + 1, g) ==> fragS[1] == after))
    }

    method FetchAhead(k: nat, stage: nat, ghost row: nat, ghost n: nat, ghost t: nat)
      requires Wired() && k < wrIters && t < n && stage == t % STAGES
      requires Ring(mem, g, row, n, t + (if k < wrIters - 1 then 3 else 4), t + (if k < wrIters - 1 then 1 else 2))
      requires Loaded(row, t, k)
      modifies this`frag, this`fragS, this`fragQzp
      ensures Wired() && LoadedAhead(row, n, t, k)
    {
      if k == wrIters - 1 {
        NextTile(k, stage, row, n, t);
      } else {
        LandedTile(mem, g, row, n, t + 3, t + 1, t);
        FetchStepToRegisters(k + 1, stage);
      }
    }

    /** The last step of a tile reads the first step of the tile after it, which lives one stage on. */
    method NextTile(k: nat, stage: nat, ghost row: nat, ghost n: nat, ghost t: nat)
      requires Wired() && k == wrIters - 1 && t < n && stage == t % STAGES
      requires Ring(mem, g, row, n, t + 4, t + 2)
      requires Loaded(row, t, k)
      modifies this`frag, this`fragS, this`fragQzp
      ensures Wired() && LoadedAhead(row, n, t, k)
    {
      if t + 1 < n {
        LandedTile(mem, g, row, n, t + 4, t + 2, t + 1);
        OpensWith(t, g, row);
      }
      FetchStepToRegisters(k + 1, stage + 1);
    }

    /** Ask for the tile three ahead, if the slice has one, and wait for the next one to land. */
    method MoveOn(stage: nat, sliceIters: nat, ghost row: nat, ghost n: nat, ghost t: nat)
      requires Wired() && t < n && stage == t % STAGES && sliceIters == n - t
      requires aRd + stage == row + t + (STAGES - 1)
      requires Ring(mem, g, row, n, t + 3, t + 1)
      modifies this`mem
      ensures Wired() && Ring(mem, g, row, n, t + 4, t + 2)
    {
      Ask((stage + STAGES - 1) % STAGES, stage, sliceIters >= STAGES, row, n, t + 3, t + 1);
      WaitForStage(row, n, t + 4, t + 1);
    }

    method Ask(pipe: nat, aOff: nat, pred: bool, ghost row: nat, ghost n: nat, ghost issued: nat, ghost landed: nat)
      requires Wired() && Ring(mem, g, row, n, issued, landed)
      requires pipe == issued % STAGES && pred == (issued < n) && (pred ==> aRd + aOff == row + issued)
      modifies this`mem
      ensures Wired() && Ring(mem, g, row, n, issued + 1, landed)
    {
      if pred {
        IssueKeepsRing(mem, g, row, n, issued, landed);
      } else {
        EmptyKeepsRing(mem, g, row, n, issued, landed);
      }
      FetchToShared(pipe, aOff, pred);
    }

    /** Wait until the stage about to be read has landed. */
    method WaitForStage(ghost row: nat, ghost n: nat, ghost issued: nat, ghost landed: nat)
      requires Wired() && Ring(mem, g, row, n, issued, landed) && issued == landed + 3
      modifies this`mem
      ensures Wired() && Ring(mem, g, row, n, issued, landed + 1)
    {
      LandKeepsRing(mem, g, row, n, issued, landed);
      CpAsyncWait(STAGES - 2);
    }

    /** Fill the ring, and take the first step's operands out of it. Whatever the previous slice left
        in shared memory and in the registers does not matter. */
    method StartPipes(row: nat, sliceIters: nat)
      requires Wired() && mem.batches == [] && sliceIters > 0 && row % g == 0
      modifies this
      ensures Wired() && aRd == row + (STAGES - 1)
      ensures Ring(mem, g, row, sliceIters, 3, 1) && Loaded(row, 0, 0) && acc == [] && !spoiled
    {
      OpensIs(row, g);
      Seek(row);
      acc := [];
      spoiled := false;
      assert Ring(mem, g, row, sliceIters, 0, 0);
      for i := 0 to STAGES - 1
        invariant Wired() && aRd == row && acc == [] && !spoiled
        invariant Ring(mem, g, row, sliceIters, i, 0)
      {
        Ask(i, i, i < sliceIters, row, sliceIters, i, 0);
      }
      aRd := aRd + (STAGES - 1);
      WaitForStage(row, sliceIters, 3, 0);
      LandedTile(mem, g, row, sliceIters, 3, 1, 0);
      FetchStepToRegisters(0, 0);
    }

    /** Point the global reads at the start of the slice. */
    method Seek(row: nat)
      requires Wired() && row % g == 0
      modifies this`mem, this`aRd
      ensures Wired() && aRd == row
      ensures mem == old(mem).(bRd := row, sRd := GroupOf(row, g), zpRd := GroupOf(row, g), fetched := [])
    {
      GroupIs(threadKBlocks, wrIters, row);
      aRd := row;
      mem := mem.(bRd := row, sRd := threadKBlocks * row / GROUP_BLOCKS,
                  zpRd := threadKBlocks * row / GROUP_BLOCKS, fetched := []);
    }

    /** One slice: `sliceIters` tiles of k from row `row` on. The accumulator takes in exactly what the
        plain loop multiplies, in its order; every tile of the slice is read from global memory once,
        in order, and no other is; and no copy is left under way. */
    method MultiplySlice(row: nat, n: nat)
      requires Wired() && mem.batches == [] && n > 0 && row % g == 0
      modifies this
      ensures Wired() && mem.batches == []
      ensures acc == Plain(row, g, wrIters, n, 0) && !spoiled
      ensures mem.fetched == Run(row, n)
    {
      StartPipes(row, n);
      var sliceIters := n;
      ghost var round := 0;
      while sliceIters > 0
        invariant Between(row, n, sliceIters, round, 0)
        decreases sliceIters
      {
        sliceIters := OneRound(sliceIters, row, n, round);
        aRd := aRd + STAGES;
        round := round + 1;
      }
      AllLand(mem);
      CpAsyncWait(0);
    }

    /** Between two tiles, `stage` stages into the given round, with `sliceIters` tiles to go. */
    ghost predicate Between(row: nat, n: nat, sliceIters: nat, round: nat, stage: nat)
      reads this
    {
      && Wired() && sliceIters <= n
      && Ring(mem, g, row, n, n - sliceIters + 3, n - sliceIters + 1)
      && acc == Plain(row, g, wrIters, n - sliceIters, 0) && !spoiled
      && (sliceIters > 0 ==>
            && n - sliceIters == STAGES * round + stage
            && aRd + stage == row + (n - sliceIters) + (STAGES - 1)
            && Loaded(row, n - sliceIters, 0))
    }

    /** One round of the ring: four tiles, or what is left of the slice. */
    method OneRound(iters: nat, ghost row: nat, ghost n: nat, ghost round: nat) returns (sliceIters: nat)
      requires iters > 0 && Between(row, n, iters, round, 0)
      modifies this`mem, this`frag, this`fragS, this`fragQzp, this`fragZp, this`acc, this`spoiled
      ensures sliceIters < iters && Between(row, n, sliceIters, round, STAGES)
    {
      sliceIters := iters;
      var stage := 0;
      while stage < STAGES
        invariant stage <= STAGES && Between(row, n, sliceIters, round, stage)
        invariant sliceIters > 0 && sliceIters + stage == iters
      {
        MultiplyTile(stage, sliceIters, row, n, round);
        sliceIters := sliceIters - 1;
        if sliceIters == 0 {
          break;
        }
        stage := stage + 1;
      }
    }

    /** All the steps of one tile. */
    method MultiplyTile(stage: nat, sliceIters: nat, ghost row: nat, ghost n: nat, ghost round: nat)
      requires sliceIters > 0 && stage < STAGES && Between(row, n, sliceIters, round, stage)
      modifies this`mem, this`frag, this`fragS, this`fragQzp, this`fragZp, this`acc, this`spoiled
      ensures Between(row, n, sliceIters - 1, round, stage + 1)
    {
      ghost var t := n - sliceIters;
      assert stage == t % STAGES;
      MultiplySteps(stage, sliceIters, row, n, t);
    }

    method MultiplySteps(stage: nat, sliceIters: nat, ghost row: nat, ghost n: nat, ghost t: nat)
      requires Wired() && t < n && stage == t % STAGES && sliceIters == n - t && aRd + stage == row + t + (STAGES - 1)
      requires Ring(mem, g, row, n, t + 3, t + 1) && Loaded(row, t, 0)
      requires acc == Plain(row, g, wrIters, t, 0) && !spoiled
      modifies this`mem, this`frag, this`fragS, this`fragQzp, this`fragZp, this`acc, this`spoiled
      ensures Wired() && Ring(mem, g, row, n, t + 4, t + 2) && (t + 1 < n ==> Loaded(row, t + 1, 0))
      ensures acc == Plain(row, g, wrIters, t + 1, 0) && !spoiled
    {
      for k := 0 to wrIters
        invariant Wired()
        invariant Ring(mem, g, row, n, t + (if k < wrIters - 1 then 3 else 4), t + (if k < wrIters - 1 then 1 else 2))
        invariant k < wrIters ==> Loaded(row, t, k)
        invariant k == wrIters && t + 1 < n ==> Loaded(row, t + 1, 0)
        invariant acc == Plain(row, g, wrIters, t, k) && !spoiled
      {
        StepOnce(k, stage, sliceIters, row, n, t);
      }
    }
  }

  function StepOf(r: Reg<Tile>, step: nat): Reg<Step> {
    match r case Garbage => Garbage case Value(t) => Value(Step(t.a, t.b, step))
  }
}

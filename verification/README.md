# Proofs of loken's hardest logic

These modules model eight parts of the repository in Dafny and prove what each of them is for. Code
that works by changing things is modelled by classes, loops and in-place arrays, proved against
specification functions; the theorems are lemmas about those functions, over every input and every
run. `dafny verify dfyconfig.toml` checks the whole project.

| files | what they model |
|---|---|
| `StreamKPartition`, `StreamKLocks`, `StreamKKernel`, `StreamKPipeline`, `StreamKMultiply`, `BlockReduce`, `DivMod` | The Marlin matrix kernel: how blocks, each on its own, cut the work into tiles and stripes; the spin-lock hand-over that sums a shared tile; the four-stage asynchronous pipeline with its scale groups; what a stored sum takes in of both; the reduction within a block. |
| `RequestGate` | The priority gate: permits, the queue, grants that race a deadline, callers that go away, guards whose release is deferred. |
| `StreamToolScanner`, `ToolCallStream`, `Text` | The streaming scanner that stops at a tool call, and at what the renderers write. |
| `HarmonyNoise`, `ThinkSplit`, `ThinkSplitCuts`, `ThinkSplitExact`, `ThinkSplitMeaning`, `ThinkSplitBlocks` | The splitter of reasoning from answer, streamed and whole. |
| `Json`, `JsonReader`, `Mistral`, `MistralRoundTrip`, `Dsml`, `DsmlRoundTrip`, `ToolCallReader` | The balanced-span scanner over a JSON printer, and two tool-call syntaxes, written and read; a JSON reader by RFC 8259, so that nothing need be assumed of one. |
| `RateLimiter`, `RateLimiterBound`, `RateLimiterWait` | The token bucket per client and the sweep that forgets idle buckets; the rate the limiter holds; the wait it tells. |
| `EnergyMeter`, `EnergyLedger`, `EnergyRuns`, `EnergyConservation` | The energy meter over wrapping counters and the shares of overlapping requests. |
| `EditDistance` | The one-row word edit distance. |

## What the proofs take as given

- The kernel: positive extents; `thread_k_blocks` divides 8; `tiles_per_group` divides `k_tiles`;
  `b_sh_wr_iters` even, at least 2 and at most `thread_k_blocks`. Each is a named precondition
  (`Problem.Valid`, `ValidShape`). Every block goes on being scheduled: a schedule ends only where no
  block can step.
- The gate: every locked section is one step, and a request that waits, wakes, times out or goes away
  does so by one of the listed events.
- The tool-call syntaxes: the JSON parser is a parameter, and a call's arguments are assumed to be
  read back by it as they were written (`MistralRoundTrip.ReadsBack`, `DsmlRoundTrip.WritableValue`).
  `ToolCallReader` proves that of a reader and states the round trips without it.
  Names are written without escapes, so in Mistral's syntax they hold no quote, backslash or control
  character (`MistralRoundTrip.PlainName`), and in DSML, where they are attributes of a tag, none of
  `"`, `<`, `>` and `=` (`DsmlRoundTrip.PlainName`). The order in which a JSON map is written is the
  library's, so that writer is a parameter too.
- Energy and rate: `f64` is `real`, and the clock does not run backwards between calls.

## What the code does otherwise than it says

- `cuda/marlin/marlin_template.h:338-339` says slices are counted backwards because the last slice,
  index 0, ends up with the total and writes it. The slice that writes is the one of index
  `slice_count - 1` (line 1020), which is the first along k; index 0 adds first. The model follows
  the code.
- `src/api/tool_calls.rs:1367-1368` says markers are ASCII. The DeepSeek markers are not. The
  conclusion drawn there still holds, because every marker starts with an ASCII character; the model
  is on characters.
- `src/api/rate_limiter.rs:84-93` says forgetting a bucket idle for an hour changes nothing. That is so
  exactly if `refill_rate * 3600 >= burst_capacity` (`RateLimiter.EvictionIsUnseenIff`), and just there
  the limiter holds its rate (`RateLimiterBound.HoldsRateIff`). A limit of one request a minute with a
  burst of 61 is outside it: such a client can have its burst twice within an hour.
- `src/api/rate_limiter.rs:107-109` says a refused client is told the wait until it has a token, or none
  if its bucket never refills. Being forgotten can give it a token earlier; that is so exactly below one
  token an hour (`RateLimiterWait.KeepsItsWordIff`), which no configured limit is.
- `src/api/rate_limiter.rs:72-81`: with `burst_capacity` 0 a wait is named though none is ever enough
  (`RateLimiter.NoBurstNoCall`). The one caller passes at least 1.
- `src/api/thinking.rs:191-197`: deleting one turn token can put another together, and then the answer
  depends on how the stream was cut (`ThinkSplitExact.CuttingMatters`); when it does not is stated
  exactly by `ThinkSplitExact.CuttingIsFreeIff`.
- `src/api/tool_calls.rs:1150-1151` says the marker may be followed by a single object. The first list
  in the text is looked for before the object, so an object is read as the call it is exactly if no list
  is found from there to the end of the text, in its arguments or after it
  (`MistralRoundTrip.ObjectIsReadIff`; `ObjectIsLost` is one that is not).

## Model

| member | source | states |
|---|---|---|
| StreamKPartition.SharedTilesLeaveRounds | cuda/marlin/marlin_template.h:281-290 | With any number of tiles and blocks, what part 1 hands out is whole rounds of one tile per block, and at least one tile is shared. |
| StreamKPartition.StripesReach | cuda/marlin/marlin_template.h:294-296 | A stripe is a positive whole number of scale groups, and the grid's stripes reach the end of the shared tiles. |
| StreamKPartition.SplitIsExact | cuda/marlin/marlin_template.h:273-296 | Every launch's split is well formed and leaves no work over; its stripes are whole scale groups, and no shorter than a tile once a grid's worth of tiles is shared. |
| StreamKPartition.StripeIsLeast | cuda/marlin/marlin_template.h:292-296 | A stripe is the least whole number of scale groups of which one for each block covers the shared work. |
| StreamKPartition.SharedIs | cuda/marlin/marlin_template.h:278-287 | With more tiles than blocks, how many are shared: the one number that leaves whole rounds and lies above a third of the grid and no more than a grid above that. |
| StreamKPartition.SplitIsEven | cuda/marlin/marlin_template.h:270-296 | Both of the split of every launch; with no more tiles than blocks all are shared. |
| StreamKPartition.LoadIs | cuda/marlin/marlin_template.h:323-332 | All the k-blocks of a block's slices together are its whole tiles and one stripe, or what the stripes before it left of the work. |
| StreamKPartition.LoadsAreEven | cuda/marlin/marlin_template.h:292-332 | No block takes more beyond its whole tiles than it must where each takes up to a whole number of scale groups; the first block takes the most, a stripe or all the shared work. |
| StreamKPartition.MeetsRange | cuda/marlin/marlin_template.h:337-352 | The blocks whose stripes meet a shared tile are exactly a run of consecutive blocks, first to last. |
| StreamKPartition.AtMostTwo | cuda/marlin/marlin_template.h:307-310 | With at least a grid's worth of shared tiles no tile is cut between more than two blocks. |
| StreamKPartition.Block.constructor | cuda/marlin/marlin_template.h:298-310 | A block that knows only its number and the launch stands at the first of its planned slices. |
| StreamKPartition.Block.PlaceInTile | cuda/marlin/marlin_template.h:340-352 | The count and the place a block computes with `div_ceil` and truncating division are those of the run of blocks that meet its tile. |
| StreamKPartition.Block.InitPart2Slice | cuda/marlin/marlin_template.h:323-367 | From where the block was put, all its fields become those of its n-th planned slice, or its work is over. |
| StreamKPartition.Block.CrossOver | cuda/marlin/marlin_template.h:374-383 | The crossing into part 2 puts the block at the start of its stripe, at the right column of the right problem. |
| StreamKPartition.Block.InitSlice | cuda/marlin/marlin_template.h:370-395 | Whichever part is next, the block ends up at its n-th planned slice. |
| StreamKPartition.Block.NextSlice | cuda/marlin/marlin_template.h:399-408 | From the n-th planned slice a block goes on to the (n+1)-th. |
| StreamKPartition.Run | cuda/marlin/marlin_template.h:410 | The slices a block goes through until `slice_iters` is zero are the planned ones, in order. |
| StreamKPartition.VisitPlace | cuda/marlin/marlin_template.h:376-392 | A slice's problem and column are always the quotient and remainder of its global tile number. |
| StreamKPartition.Covered | cuda/marlin/marlin_template.h:323-408 | Every k-block of every output tile lies in the slice that the closed form of its position names. |
| StreamKPartition.CoveredByOne | cuda/marlin/marlin_template.h:323-408 | No other slice of any block holds it. |
| StreamKPartition.EachKBlockExactlyOnce | cuda/marlin/marlin_template.h:273-408 | Over all slices of all blocks each (output tile, k-block) pair is worked on exactly once. |
| StreamKPartition.SlicesStayInside | cuda/marlin/marlin_template.h:323-332 | Every slice is nonempty, of one existing tile, and within its k row. |
| StreamKPartition.SlicesStartAtAGroup | cuda/marlin/marlin_template.h:292-296 | No slice starts in the middle of a scale group. |
| StreamKPartition.SharersAgree | cuda/marlin/marlin_template.h:334-352 | Each block's own `slice_count` is the number of blocks that take part in its tile, and its `slice_idx` the number of those that come after it along k. |
| StreamKPartition.PlacesDiffer | cuda/marlin/marlin_template.h:337-352 | Two slices of one tile have the same place only if they are the same slice of the same block. |
| StreamKPartition.LocksNameTiles | cuda/marlin/marlin_template.h:307-366 | Shared slices reach the same lock exactly when they are of the same tile, in both regimes, and every lock is below the grid size. |
| StreamKPartition.LocksDiffer | cuda/marlin/marlin_template.h:307-310 | Two different shared tiles never have the same lock. |
| StreamKLocks.StepKeepsInv | cuda/marlin/marlin_template.h:1019-1036 | Every step of every block keeps the invariant of the hand-over: whose turn each tile is at, what its scratch holds, what its lock counts and what was written. |
| StreamKLocks.RunKeepsInv | cuda/marlin/marlin_template.h:1019-1036 | So does every interleaving of steps. |
| StreamKLocks.NeverStuck | cuda/marlin/marlin_template.h:116-136 | In no reachable unfinished state are all blocks waiting. |
| StreamKLocks.RunsEnd | cuda/marlin/marlin_template.h:116-155 | No schedule of enabled steps is longer than the work left at its start. |
| StreamKLocks.OneHolder | cuda/marlin/marlin_template.h:131-155 | No two blocks are between acquiring and releasing the same tile's lock at once. |
| StreamKLocks.WrittenOnce | cuda/marlin/marlin_template.h:1032-1035 | At any point of any interleaving a shared tile was written at most once, and then with the fold of its parts in slice order. |
| StreamKLocks.EveryRunFinishes | cuda/marlin/marlin_template.h:1023-1036 | Every schedule that can go no further has written every tile exactly once, the same fold of its parts whatever the schedule and without using that addition is associative, and has left every lock at zero. |
| StreamKLocks.FinishedClean | cuda/marlin/marlin_template.h:145-155 | A finished state has every tile written once and every lock back at zero. |
| StreamKKernel.PlanOfIsValid | cuda/marlin/marlin_template.h:307-366 | What the blocks work out apart is a sound plan for the hand-over: sharers agree on who shares a tile and locks do not collide. |
| StreamKKernel.SlicesFollowPlan | cuda/marlin/marlin_template.h:323-367 | A block's tile, count, place and lock for each of its shared slices are the plan's. |
| StreamKKernel.EveryLaunchFinishes | cuda/marlin/marlin_template.h:969-1040 | For every launch and every interleaving: the grid finishes, every output tile is stored exactly once with a sum that does not depend on the interleaving, and all locks are zero. |
| StreamKKernel.LaunchesAreSound | cuda/marlin/marlin_template.h:273-310 | The side conditions of that theorem hold of every launch with positive extents. |
| StreamKPipeline.GroupsFitTheRing | cuda/marlin/marlin_template.h:292-294 | A scale group spans one, two or four tiles of k, so groups line up with the four stages. |
| StreamKPipeline.GroupIs | cuda/marlin/marlin_template.h:505-508 | The group number a seek computes is the group the absolute row lies in, and a row opens a group exactly when its tile number divides by the group's tiles. |
| StreamKPipeline.PlainIs | cuda/marlin/marlin_template.h:713-739 | The plain loop multiplies every 16-wide step of every tile of the slice in order, each with the scale and zero point of group `thread_k_blocks * r / group_blocks` of its absolute row r. |
| StreamKPipeline.IssueKeepsRing | cuda/marlin/marlin_template.h:597-635 | Asking for the next tile overwrites only a stage nobody will read again. |
| StreamKPipeline.EmptyKeepsRing | cuda/marlin/marlin_template.h:594-597 | An empty batch on the wind-down keeps the count of outstanding batches right. |
| StreamKPipeline.LandKeepsRing | cuda/marlin/marlin_template.h:637-648 | Waiting until two batches are outstanding is enough for the next stage to have landed. |
| StreamKPipeline.LandedTile | cuda/marlin/marlin_template.h:654-698 | A stage of a landed tile that was not asked over yet holds that tile's blocks and, where it opens a group, that group's scale and zero point. |
| StreamKPipeline.Pipeline.constructor | cuda/marlin/marlin_template.h:572-577 | A pipeline of any valid shape starts with nothing asked for, its group length that of the shape. |
| StreamKPipeline.Pipeline.FetchToShared | cuda/marlin/marlin_template.h:597-635 | One stage's loads are started, with its group's when the stage opens one, and a batch is counted even when nothing is loaded. |
| StreamKPipeline.Pipeline.CpAsyncWait | cuda/marlin/marlin_template.h:642-648 | The oldest batches land until at most so many are outstanding. |
| StreamKPipeline.Pipeline.FetchStepToRegisters | cuda/marlin/marlin_template.h:654-705 | Which stage, step, buffer and group head each register is filled from. |
| StreamKPipeline.Pipeline.Matmul | cuda/marlin/marlin_template.h:713-755 | What one multiply consumes; the unpacked zero point changes only at the head of a group. |
| StreamKPipeline.Pipeline.StepOnce | cuda/marlin/marlin_template.h:980-995 | Each multiply of step k of tile t takes step k of tile t, landed and not overwritten, with that tile's group. |
| StreamKPipeline.Pipeline.Seek | cuda/marlin/marlin_template.h:500-509 | The global reads point at the slice's first row and its group. |
| StreamKPipeline.Pipeline.StartPipes | cuda/marlin/marlin_template.h:956-967 | After the prologue the ring and the registers are ready for the first multiply, also for a slice shorter than the pipeline. |
| StreamKPipeline.Pipeline.MultiplyTile | cuda/marlin/marlin_template.h:978-998 | The unrolled inner loop multiplies exactly the steps of one tile. |
| StreamKPipeline.Pipeline.OneRound | cuda/marlin/marlin_template.h:974-1001 | A round of the ring multiplies four tiles, or what is left of the slice. |
| StreamKPipeline.Pipeline.MultiplySlice | cuda/marlin/marlin_template.h:970-1019 | For every slice length the pipelined loop accumulates exactly what the plain loop does, in its order; each tile of the slice is fetched once, in order, and no other is; and no copy is left under way. |
| StreamKMultiply.MultiplyBlock | cuda/marlin/marlin_template.h:969-1040 | A block takes its planned slices one after the other through one pipeline, and over each it accumulates what the plain loop does from that slice's row, scale groups included. |
| StreamKMultiply.PlainJoins | cuda/marlin/marlin_template.h:713-739 | The plain loop over two runs of k that lie end to end is the plain loop over both. |
| StreamKMultiply.PiecesMeet | cuda/marlin/marlin_template.h:323-352 | The pieces of a shared tile lie end to end: the first starts at its top, the last ends at its bottom. |
| StreamKMultiply.SumIsPlain | cuda/marlin/marlin_template.h:829-857 | The first k parts of a tile, as the hand-over adds them, take in the plain loop over the end of its k row. |
| StreamKMultiply.TotalIsPlain | cuda/marlin/marlin_template.h:829-857 | What a tile should hold takes in its whole k row in order, each step of each k-block once, with the scale and zero point of its own group. |
| StreamKMultiply.LaunchIsPlain | cuda/marlin/marlin_template.h:969-1040 | For every launch and every interleaving, what is stored for an output tile is stored once and takes in the operands of the plain loop over the tile's whole k row. |
| BlockReduce.CellsDiffer | cuda/marlin/marlin_template.h:773-780 | No two floats that the lanes of a group hold have the same place in the group's part of shared memory. |
| BlockReduce.AddressIs | cuda/marlin/marlin_template.h:775-790 | The address a thread works out is that of its group's part and its float's place in it. |
| BlockReduce.NoSharedSlots | cuda/marlin/marlin_template.h:785-804 | In one round no address that is read or written for one float of one group is written for any other. |
| BlockReduce.Round | cuda/marlin/marlin_template.h:785-805 | One round leaves for each lower group, float by float, the sum of what both halves held, in whatever order groups and floats go. |
| BlockReduce.ReduceBlock | cuda/marlin/marlin_template.h:786-819 | For every power-of-two number of groups, group 0 ends with the sum of all groups' partials, for every float of every lane. |
| BlockReduce.ThreadBlockReduce | cuda/marlin/marlin_template.h:769-821 | For every block of rows, one after the other through the same shared memory: group 0 ends with the sum of all groups for every float of every accumulator that is walked, of every lane. |
| RequestGate.GreatestIsUnique | src/api/gate.rs:73-81 | The order of waiters, priority and then arrival, leaves no ties at the top of the heap. |
| RequestGate.ReleaseFindsTheBest | src/api/gate.rs:239-262 | The released permit goes to the best of the waiters that are still there; the slot stays taken, and what is left queued is what ranks below. |
| RequestGate.ReleaseFreesTheSlot | src/api/gate.rs:239-262 | With no live waiter the queue empties, its entries go, and one slot is freed. |
| RequestGate.ReleaseConserves | src/api/gate.rs:239-263 | A release with a permit in hand keeps every conserved quantity. |
| RequestGate.FastPathConserves | src/api/gate.rs:154-170 | Arriving with a slot free keeps them. |
| RequestGate.SlowPathConserves | src/api/gate.rs:171-199 | So does queueing. |
| RequestGate.WakeConserves | src/api/gate.rs:228-232 | So does waking. |
| RequestGate.LeaveConserves | src/api/gate.rs:207-213 | So does a deadline that finds the waiter still queued. |
| RequestGate.RaceReleases | src/api/gate.rs:213-219 | A deadline that loses the race to its own grant passes the permit on: nothing is leaked or duplicated. |
| RequestGate.DropGuardConserves | src/api/gate.rs:325-340 | So does dropping a guard, at once or deferred. |
| RequestGate.NextKeeps | src/api/gate.rs:145-340 | Every step of a caller or of the gate keeps the invariant, conservation and fairness both. |
| RequestGate.RunKeeps | src/api/gate.rs:145-340 | So does every run. |
| RequestGate.NoPermitIsLost | src/api/gate.rs:145-263 | After any run: `in_flight` is the number of permits sent, held or about to be given back, never above the limit; the keys of `tracked` are exactly those requests and the queued ones, no request being both; and nobody queues while a slot is free. |
| RequestGate.GrantsFollowArrival | src/api/gate.rs:73-81 | After any run, grants within one priority went out in order of arrival. |
| RequestGate.NobodyIsStranded | src/api/gate.rs:240-244 | While a request is queued some permit is out and will come back through the gate. |
| RequestGate.NoOvertakingOnArrival | src/api/gate.rs:154-199 | After any run, while anyone is queued an arrival joins the queue at its priority and takes no slot. |
| RequestGate.PermitReachesTheBest | src/api/gate.rs:206-263 | After any run, a permit that comes back, by a guard dropped, a deferred release or a lost race, goes to the best waiter that is still there; the slot stays taken and the queue keeps what ranks below. |
| RequestGate.NamedByEvents | src/api/gate.rs:145-199 | After any run the priority the gate holds of a request is that of the event that brought it, and its place in line the number of requests that came to the lock before it. |
| RequestGate.FirstInLineIsWoken | src/api/gate.rs:25-32 | After any run, a permit that comes back while requests wait goes to one of them: completion before chat, chat before batch, and of one priority the first to come, priorities and places as the events gave them. |
| RequestGate.PermitFreesItsSlot | src/api/gate.rs:206-263 | After any run, one that comes back while no waiter is still there frees its slot, and the gate tracks only who holds the others. |
| RequestGate.Gate.constructor | src/api/gate.rs:130-138 | A gate has at least one slot and starts empty. |
| RequestGate.Gate.Pop | src/api/gate.rs:244 | The greatest waiter is taken out and the rest stay. |
| RequestGate.Gate.Send | src/api/gate.rs:245-253 | The permit lands exactly if the receiver is still there. |
| RequestGate.Gate.ReleasePermit | src/api/gate.rs:239-263 | The loop hands the permit on as the specification says. |
| RequestGate.Gate.TakeId | src/api/gate.rs:152 | A request takes a fresh id. |
| RequestGate.Gate.Acquire | src/api/gate.rs:154-199 | At the lock a request runs or queues as the specification says. |
| RequestGate.Gate.WakeUp | src/api/gate.rs:228-232 | The woken request marks itself running. |
| RequestGate.Gate.GiveUp | src/api/gate.rs:206-226 | On a deadline the waiter is removed, or the permit that had landed is handed on. |
| RequestGate.Gate.CallerGone | src/api/gate.rs:240-244 | A dropped caller leaves its waiter in the heap. |
| RequestGate.Gate.GuardDropped | src/api/gate.rs:325-334 | A dropped guard releases at once when the lock is free and is deferred when it is not. |
| RequestGate.Gate.FinishDrop | src/api/gate.rs:335-339 | A deferred release happens when it gets the lock. |
| Text.OverlapIs | src/api/thinking.rs:199-205 | The number of trailing characters that may start a tag is the greatest there is. |
| Text.Find | src/api/tool_calls.rs:1435 | The first occurrence at or after a place. |
| StreamToolScanner.PartialMarkerOverlap | src/api/tool_calls.rs:1369-1379 | The downward loop finds the longest proper beginning of the marker that the text ends with. |
| StreamToolScanner.FirstMarker | src/api/tool_calls.rs:1432-1439 | The earliest complete marker at or after the emitted text. |
| StreamToolScanner.HoldBack | src/api/tool_calls.rs:1449-1452 | The longest end of the text that may start any marker. |
| StreamToolScanner.BoundaryIsUnique | src/api/tool_calls.rs:1426-1460 | What may be passed on is determined by the text alone. |
| StreamToolScanner.Scanner.constructor | src/api/tool_calls.rs:1410-1421 | A scanner of any format starts valid; its markers are told apart. |
| StreamToolScanner.Scanner.Push | src/api/tool_calls.rs:1426-1460 | After a push `emitted` stands at the boundary of the text so far, and what is returned is the text between the old and the new boundary. |
| StreamToolScanner.Scanner.Unstreamed | src/api/tool_calls.rs:1481-1487 | What was held back is given back whole, but for a marker that stands alone. |
| StreamToolScanner.RealMarkers | src/api/tool_calls.rs:73-90 | In none of the six formats does a marker stand inside another. |
| StreamToolScanner.NothingStartsBefore | src/api/tool_calls.rs:1364-1379 | No marker ever starts in text already passed on, whatever follows. |
| StreamToolScanner.ChunkingIsFree | src/api/tool_calls.rs:1426-1460 | For any chunks the pieces passed on join up to the text before the first marker, or to the text less the longest end that may start one. |
| StreamToolScanner.NoMarkerIsPassedOn | src/api/tool_calls.rs:1446-1460 | No marker lies in or straddles the emitted text, however the text goes on. |
| StreamToolScanner.HeldBackForAReason | src/api/tool_calls.rs:1446-1452 | Without a marker so far, what is held back could still become one. |
| StreamToolScanner.MarkersAre | src/api/tool_calls.rs:73-90 | The markers of each format, spelled out. |
| StreamToolScanner.StopsAtMarker | src/api/tool_calls.rs:1426-1460 | However a text is cut, of one in which a marker of the format stands, what comes before the first is passed on, and nothing else. |
| ToolCallStream.MistralCallsStop | src/api/tool_calls.rs:326-345 | What the renderer writes for a turn's calls stops the stream at its first character, after any text without a marker and with anything after it. |
| ToolCallStream.DsmlCallsStop | src/api/tool_calls.rs:319-324 | So does a DSML block. |
| HarmonyNoise.StripHarmonyNoise | src/api/thinking.rs:191-197 | The five deletions in turn. |
| HarmonyNoise.NoneInside | src/api/thinking.rs:43-49 | No turn token starts inside another, but for the second, which ends the first. |
| HarmonyNoise.NotJoinedIsOnePass | src/api/thinking.rs:191-197 | Where deleting puts no token together, the five deletions are a single pass. |
| HarmonyNoise.CutsAdd | src/api/thinking.rs:191-197 | Where deleting puts no token together, cutting the text between tokens changes nothing, at any stage. |
| HarmonyNoise.OnePassAdds | src/api/thinking.rs:191-197 | One pass is indifferent to any cut between tokens. |
| HarmonyNoise.JoinedShows | src/api/thinking.rs:191-197 | The deletions leave at most what one pass leaves, to the eye, and less exactly where they put a token together. |
| HarmonyNoise.SettledIff | src/api/thinking.rs:191-197 | The two agree exactly on texts where no token is put together. |
| ThinkSplit.FindTag | src/api/thinking.rs:98-102 | The earliest candidate tag. |
| ThinkSplit.KeepIs | src/api/thinking.rs:126-131 | What is kept back is the longest end that may start a candidate tag or a turn token. |
| ThinkSplit.Splitter.constructor | src/api/thinking.rs:79-85 | A splitter whose prompt opened the block starts inside it. |
| ThinkSplit.Splitter.EmitText | src/api/thinking.rs:153-185 | One piece is said as the specification says, with the white-space state that goes with it. |
| ThinkSplit.Splitter.TakeTag | src/api/thinking.rs:104-123 | A tag read: what stands before it is said and the other side begins. |
| ThinkSplit.Splitter.Release | src/api/thinking.rs:125-138 | No tag: all but the held-back end is said. |
| ThinkSplit.Splitter.Push | src/api/thinking.rs:87-140 | A push reads all that can be read. |
| ThinkSplit.Splitter.Finish | src/api/thinking.rs:143-151 | The end of the stream says what was held back. |
| ThinkSplit.SplitThinkingOpened | src/api/thinking.rs:220-234 | The whole-text form is one push and a finish, its reasoning trimmed. |
| ThinkSplitCuts.PushSplits | src/api/thinking.rs:87-140 | One push of two chunks joined leaves the same state and says the same reasoning and answer as two pushes, where the pieces allow it. |
| ThinkSplitCuts.RunIsOnePush | src/api/thinking.rs:87-140 | So any chunks are one push. |
| ThinkSplitCuts.LetGoIsClean | src/api/thinking.rs:126-135 | Where a push let go no turn token is cut, whatever follows. |
| ThinkSplitCuts.EmitAdds | src/api/thinking.rs:153-185 | A piece said in two leaves the same white-space state and says the same text. |
| ThinkSplitCuts.ChunkingIsFree | src/api/thinking.rs:87-151 | Streamed in any chunks and finished, the reasoning and the answer are those of the whole text, if in each piece of the answer the deletions leave what one pass leaves. |
| ThinkSplitExact.PendingIsExact | src/api/thinking.rs:125-135 | After any chunks whatever, `pending` is exactly the longest end of the text since the last tag that may begin a tag or a turn token, and the splitter is on the right side of its tags. |
| ThinkSplitExact.CharRun | src/api/thinking.rs:125-135 | One character at a time the deletions take out only what stands in the text. |
| ThinkSplitExact.UnsettledIsSeen | src/api/thinking.rs:191-197 | Where the condition fails, the text one character at a time gives another answer than the text whole. |
| ThinkSplitExact.CuttingIsFreeIff | src/api/thinking.rs:87-205 | Every way of cutting a text gives the same reasoning and answer if and only if, in every piece of the answer it says pushed whole, the five deletions in turn leave what one pass leaves. |
| ThinkSplitExact.NoiseFreeCutsAgree | src/api/thinking.rs:87-205 | Any two ways of cutting a text without turn tokens give the same reasoning and answer after `finish`. |
| ThinkSplitExact.ReadInTwoWays | src/api/thinking.rs:191-205 | A text in one piece says, pushed whole, what the deletions leave of it, and one character at a time what one pass leaves. |
| ThinkSplitExact.CuttingMatters | src/api/thinking.rs:191-197 | An end token with a return token inside it gives, pushed whole, the empty answer, and one character at a time the answer `TRAP` without the return token: a whole end token. |
| ThinkSplitMeaning.ThinksInside | src/api/thinking.rs:158-161 | The reasoning said is what stands between the tags. |
| ThinkSplitMeaning.AnswersOutside | src/api/thinking.rs:165-184 | After a block, the answer said is what stands outside the tags without turn tokens, from its first visible character on. |
| ThinkSplitMeaning.StreamMeans | src/api/thinking.rs:56-185 | However a settled stream is cut: the reasoning is the text between its tags, and the answer is the rest without turn tokens, with its leading white space kept if no block came before it and dropped if one did. |
| ThinkSplitBlocks.BlockIsRead | src/api/thinking.rs:104-123 | For each of the three families, its tags spelled out, and however it is cut: a block and an answer after it give what stands in the block and the answer without turn tokens and leading white space. |
| ThinkSplitBlocks.BlocksAreRead | src/api/thinking.rs:56-185 | So do any number of blocks of any families within an answer: their contents joined, and the rest joined, white space before the answer dropped if a block came first. |
| ThinkSplitBlocks.PromptBlockIsRead | src/api/thinking.rs:75-85 | Where the prompt opened the block the text up to `</think>` is reasoning, and the rest is read as after any block. |
| Json.FirstBalancedSpan | src/api/tool_calls.rs:1331-1362 | The scanning loop computes the specified span. |
| Json.PrintIsNeutral | src/api/tool_calls.rs:1336-1359 | Any written JSON value, brackets and quotes in its strings included, leaves the scan where it was. |
| Json.PrintedIsFound | src/api/tool_calls.rs:1317-1362 | For any array or object as `serde_json` writes it and any text after it, the scan finds exactly what was written. |
| Json.CutShortIsNotFound | src/api/tool_calls.rs:1331-1362 | Cut short anywhere it is not found. |
| JsonReader.ValueIsRead | src/api/tool_calls.rs:537 | What is written for a value is JSON that spells it: a reader by RFC 8259 gives the value back, whatever its strings hold. |
| Mistral.RenderCalls | src/api/tool_calls.rs:326-345 | The lines of a turn's calls, one per call that has a function. |
| Mistral.FindNamed | src/api/tool_calls.rs:1169-1190 | The newer spelling: name, optional call id, arguments. |
| Mistral.FindListed | src/api/tool_calls.rs:1191-1221 | The older spelling: an array, or else an object. |
| Mistral.ParseMistral | src/api/tool_calls.rs:1157-1234 | The parsing loop computes the specified content and calls. |
| MistralRoundTrip.ArgumentsLastIff | src/api/tool_calls.rs:530-538 | A call keeps its arguments as they were written if and only if they are neither null nor a bare string; null becomes an empty object and a string its own text. |
| MistralRoundTrip.ListIsFound | src/api/tool_calls.rs:338-345 | The array of one written call is found exactly, whatever its arguments hold and whatever follows. |
| MistralRoundTrip.RoundTrip | src/api/tool_calls.rs:338-345 | Any calls written after any prose without markers are read back: same names, same arguments, same order, and the prose as content, even when arguments hold braces, brackets or the marker itself. |
| MistralRoundTrip.NamedIsRead | src/api/tool_calls.rs:1169-1188 | The newer spelling is read back with anything after it. |
| MistralRoundTrip.NamedWithIdIsRead | src/api/tool_calls.rs:1169-1188 | So it is with a call id between name and arguments, which is left out. |
| MistralRoundTrip.NamedNotJson | src/api/tool_calls.rs:1180-1186 | Arguments in balanced braces that are no JSON are read as an empty object. |
| MistralRoundTrip.ItemListIsRead | src/api/tool_calls.rs:1193-1204 | A list of any calls, each with its name under `name` or `tool` and its arguments under `arguments` or `parameters`, is read whole, in order, with anything after it. |
| MistralRoundTrip.FirstKeysCount | src/api/tool_calls.rs:551-562 | Of a call with all four keys, `name` and `arguments` count. |
| MistralRoundTrip.MarkerAlone | src/api/tool_calls.rs:1224-1228 | A marker with no call after it is taken out and the text around it stays. |
| MistralRoundTrip.ObjectIsReadIff | src/api/tool_calls.rs:1193-1208 | An object alone after the marker is read as the call it is if and only if the scan for a list finds none in the text from there on, in its arguments or after it. |
| MistralRoundTrip.ObjectIsRead | src/api/tool_calls.rs:1193-1208 | Where it finds none, the object is read and what follows it is left to be read. |
| MistralRoundTrip.ObjectIsLost | src/api/tool_calls.rs:1193 | An instance of the other case: of an object whose one argument is a list of one number the list is taken for the calls, and no call comes of it. |
| ToolCallReader.ReaderReadsBack | src/api/tool_calls.rs:338-345 | A JSON reader meets all that reading Mistral's calls asks of it. |
| ToolCallReader.MistralIsReadBack | src/api/tool_calls.rs:326-345 | So any calls written after any prose without markers are read back with nothing assumed of the reader. |
| ToolCallReader.DsmlIsReadBack | src/api/tool_calls.rs:305-324 | So is a DSML block. |
| RateLimiter.Limiter.constructor | src/api/rate_limiter.rs:100-105 | A limiter starts with no buckets. |
| RateLimiter.Limiter.AdmitCall | src/api/rate_limiter.rs:121-137 | One call: sweep when large, find or make the bucket, consume, and say the wait. |
| RateLimiter.IdleIsFull | src/api/rate_limiter.rs:91-93 | A bucket idle for an hour refills to what a new one holds, if the rate fills it in an hour. |
| RateLimiter.EvictionUnseen | src/api/rate_limiter.rs:121-137 | Then over any calls of any clients the sweep changes no answer. |
| RateLimiter.EvictionSeen | src/api/rate_limiter.rs:91-97 | At any lower rate there is a run of calls that the sweep answers otherwise. |
| RateLimiter.FewClientsUnseen | src/api/rate_limiter.rs:95-124 | At any rate 4096 clients are never swept, whenever they call. |
| RateLimiter.EvictionIsUnseenIff | src/api/rate_limiter.rs:84-97 | Eviction is unobservable if and only if an hour at the refill rate fills the bucket. |
| RateLimiter.RateHolds | src/api/rate_limiter.rs:58-70 | Over any stretch of a client's calls, first to last, no more are admitted than the burst and the rate times the length of the stretch. |
| RateLimiter.OwnBucket | src/api/rate_limiter.rs:128-136 | A client's answers are those of its own bucket, whatever other clients do. |
| RateLimiter.WaitIsExact | src/api/rate_limiter.rs:72-81 | A refused client polling any number of times is refused before the wait it was told is over and admitted at its first call from then on. |
| RateLimiter.NoBurstNoCall | src/api/rate_limiter.rs:72-81 | With no burst nothing is ever admitted, though a wait is named. |
| RateLimiter.NoRefillNoCall | src/api/rate_limiter.rs:72-77 | A bucket that never refills names no wait, and there is none. |
| RateLimiterBound.HoldsRateIff | src/api/rate_limiter.rs:84-137 | Over any calls of any clients no stretch of one client's calls, first to last, is admitted faster than the burst and the rate allow, if and only if an hour at that rate fills a bucket. |
| RateLimiterBound.BurstAgain | src/api/rate_limiter.rs:84-97 | At any lower rate a client gets its whole burst twice within one hour, because it was forgotten in between. |
| RateLimiterBound.SteadyHoldsRate | src/api/rate_limiter.rs:121-137 | At any rate, a stretch without an idle hour in it is admitted no faster than burst and rate allow, whatever came before it. |
| RateLimiterBound.ShortStretchHoldsRate | src/api/rate_limiter.rs:121-137 | So is any stretch shorter than an hour. |
| RateLimiterWait.LimiterTellsTheWait | src/api/rate_limiter.rs:121-137 | The limiter as it is, where an hour gives at least one token: after a refusal that client is refused whatever it and all others ask before the wait it was told is over, and admitted at its first call from then on. |
| RateLimiterWait.KeepsItsWordIff | src/api/rate_limiter.rs:107-137 | What a refused client is told, a wait or that there is none, is kept over any calls of any clients if and only if an hour at the rate gives a token, or the burst and the rate are both nothing. |
| RateLimiterWait.ForgottenEarly | src/api/rate_limiter.rs:84-97 | Below one token an hour a client that was refused is forgotten before its time among enough others, and admitted early. |
| RateLimiterWait.ToldInVain | src/api/rate_limiter.rs:72-81 | With no burst a client is told a wait and refused when it is over. |
| EditDistance.Edits | scripts/asr_chat.py:35-43 | The one-row program computes the distance. |
| EditDistance.NextRow | scripts/asr_chat.py:38-42 | One pass overwrites row i of the table with row i+1 in place. |
| EditDistance.EditCostsOne | scripts/asr_chat.py:35-43 | One edit anywhere changes the distance to any list by one at most. |
| EditDistance.NoScriptIsShorter | scripts/asr_chat.py:35-43 | No edit script is shorter than the distance. |
| EditDistance.ScriptExists | scripts/asr_chat.py:35-43 | There is an edit script of exactly that length. |
| EditDistance.IsShortest | scripts/asr_chat.py:36 | The distance is the length of the shortest script of single-word edits. |
| EditDistance.IsZeroIff | scripts/asr_chat.py:36 | It is zero exactly between equal lists. |
| EditDistance.IsSymmetric | scripts/asr_chat.py:36 | It is symmetric. |
| EditDistance.Triangle | scripts/asr_chat.py:36 | It satisfies the triangle inequality. |
| EnergyMeter.RaplDelta | src/energy.rs:334-361 | The loop sums each kind's domains, leaving out those not read. |
| EnergyMeter.Meter.constructor | src/energy.rs:149-158 | A meter opens at a reading. |
| EnergyMeter.Meter.Lap | src/energy.rs:167-213 | A lap is what was drawn between the last reading and this one, domain by domain and in all, with the sources that were counted; the next window opens at this reading. |
| EnergyMeter.WindowIsSound | src/energy.rs:176-203 | Nothing in a window is negative, its parts make its total, and it names a source exactly if that was read: the GPU with a counter at both ends, a kind of domain if RAPL is readable and has one. |
| EnergyMeter.StaleStart | src/energy.rs:348-353 | From a start above the range only what was counted since counts. |
| EnergyMeter.LapIsExactIff | src/energy.rs:348-353 | A lap over a wrapping counter is exact if and only if it drew less than the range. |
| EnergyMeter.LapIsDrawn | src/energy.rs:167-213 | With readable counters a lap's window is what was drawn. |
| EnergyMeter.LapsTelescope | src/energy.rs:165-166 | Laps add up from first reading to last over any number of wraps. |
| EnergyLedger.Ledger.Sample | src/energy_report.rs:476-512 | The two loops split a window as the specification says. |
| EnergyLedger.Ledger.CountWork | src/energy_report.rs:489-497 | The work done by all since the last sample. |
| EnergyLedger.PartsAreWhole | src/energy_report.rs:499-503 | The parts of a sample add up to the whole. |
| EnergyRuns.SharedMeter.Open | src/energy_report.rs:541-565 | A request opens: the sample so far is split among the others, and the meter is opened if none was. |
| EnergyRuns.SharedMeter.CloseEntry | src/energy_report.rs:586-603 | A request ends or is dropped: the sample is split, it leaves with its share, and the last one closes the meter. |
| EnergyConservation.ChargeIs | src/energy_report.rs:506-508 | Each request is charged its part of each domain's energy. |
| EnergyConservation.PartIsByWork | src/energy_report.rs:499-500 | A request's part is its work over the work of all. |
| EnergyConservation.ChargedEvenly | src/energy_report.rs:501-503 | When no work was counted each of n requests is charged one n-th of the sample. |
| EnergyConservation.WorkIsCaughtUp | src/energy_report.rs:489-505 | The next sample counts work from what the probe reads now, or from before if that went back. |
| EnergyConservation.WorkSinceLast | src/energy_report.rs:489-505 | After any run whose probes do not go back, a sample counts for a probed request the work since the last event, be that the one it came with, and none for the others. |
| EnergyConservation.SharedIff | src/energy_report.rs:435-436 | After any run a share, active or gone, is marked shared exactly if at some event its request was active among others. |
| EnergyConservation.SharesSayWhatWasRead | src/energy_report.rs:426-434 | Over any run the share of a request that left has a GPU part exactly if that is read, a CPU part exactly if RAPL is read or a power configured, and is marked estimated exactly if RAPL is not read. |
| EnergyConservation.AloneTakesAll | src/energy_report.rs:476-512 | A request alone over a sample is charged all of it. |
| EnergyConservation.NextKeeps | src/energy_report.rs:541-603 | Every open, end and drop keeps conservation. |
| EnergyConservation.NothingIsLost | src/energy_report.rs:465-603 | Over any interleaving, and whatever the counters read, the shares of all requests, active, ended and dropped, add up to what was measured while any was active. |
| EnergyConservation.SharesAreWhatWasDrawn | src/energy_report.rs:465-603 | They add up to the energy drawn while at least one request was active, over any number of counter wraps; without RAPL the CPU part is the configured power times the seconds during which one was, and nothing without a power. |
| EnergyConservation.LivesGoOn | src/energy_report.rs:541-603 | Every step keeps that what was measured since each active request came is what was drawn since. |
| EnergyConservation.RunLives | src/energy_report.rs:541-603 | After any run, what was measured since each active request came is what counts as drawn since, by counter or by the configured power. |
| EnergyConservation.CameWith | src/energy_report.rs:541-565 | The reading a request's life counts from is the one of the event that opened it, whatever comes after. |
| EnergyConservation.UnsharedPaysItsLife | src/energy_report.rs:435-436 | In any run from the start: a request opened by the k-th event that leaves without ever having been marked `shared` is charged exactly what was drawn between the two readings; without RAPL, the configured power times the time between them. |
| Dsml.DsmlParams | src/api/tool_calls.rs:396-411 | One line per entry of the object the argument text spells, in the order written; nothing if it spells none. |
| Dsml.DsmlAttr | src/api/tool_calls.rs:792-797 | The value of a header's attribute. |
| Dsml.ParseParams | src/api/tool_calls.rs:834-862 | The parameter loop computes the specified arguments. |
| Dsml.ParseInvokes | src/api/tool_calls.rs:820-867 | The invoke loop computes the specified calls. |
| Dsml.ParseDsml | src/api/tool_calls.rs:802-872 | The parser computes the specified content and calls, each with the text of its arguments. |
| DsmlRoundTrip.NameIsRead | src/api/tool_calls.rs:792-797 | The name in a header is read back whatever follows it. |
| DsmlRoundTrip.ValueIsWholeIff | src/api/tool_calls.rs:845-851 | A parameter's value is read whole if and only if it does not hold its own closing tag. |
| DsmlRoundTrip.ParamIsRead | src/api/tool_calls.rs:836-861 | A written parameter is read back as the argument it was, strings and other JSON values alike. |
| DsmlRoundTrip.InvokeIsRead | src/api/tool_calls.rs:822-866 | A written call is read back and the rest is left to be read. |
| DsmlRoundTrip.ArgumentsComeBack | src/api/tool_calls.rs:852-860 | With distinct keys the arguments are exactly the parameters written. |
| DsmlRoundTrip.RoundTrip | src/api/tool_calls.rs:305-324 | Any number of calls written as one block within prose are read back: the same names in the same order, each with its arguments, and the prose as content, when no value holds a closing tag. |
| DsmlRoundTrip.TurnRoundTrip | src/api/tool_calls.rs:305-324 | The same of a turn as its history holds it: every call that has a function comes back under its name with the object its argument text spells, with that of `{}` if it has none, and with no arguments if it spells none. |
| DsmlRoundTrip.UnclosedIsRead | src/api/tool_calls.rs:811-832 | A block that ends with the text, itself and its last call unclosed: every call is read, the last one too. |
| DsmlRoundTrip.UnclosedValueIsRead | src/api/tool_calls.rs:845-851 | A value that breaks off with the text is read as far as it goes. |
| DsmlRoundTrip.KindlessIsString | src/api/tool_calls.rs:841-843 | A parameter that does not say its kind is a string. |
| DsmlRoundTrip.NoJsonIsString | src/api/tool_calls.rs:853-858 | One that says it is none but is no JSON is a string all the same. |

## Left out

- Marlin: the PTX instructions, fragment and bank layouts, f16 and f32 rounding, the pointer arithmetic of `A` and `C` beyond problem and column, what single threads of a block do, and the launcher. A product is an opaque value and `div_ceil` is mathematical ceiling.
- Marlin: index arithmetic is unbounded, so a launch whose products exceed 32 bits is not modelled.
- StreamKLocks.EveryRunFinishes: memory is sequentially consistent; that the acquire and release instructions give that is not modelled.
- StreamKPipeline.Pipeline.MultiplySlice: the block is one thread; that the barriers order the threads of a block is not modelled, and an empty wait for `cp.async` is the landing of the oldest batches.
- BlockReduce.ThreadBlockReduce: floats are `real`. Shared memory is an array of a row for each group; that the flat addresses of the kernel are such rows is AddressIs and AddressesDiffer.
- RequestGate: the runtime, logging, wall-clock fields and the snapshot. The heap is a set from which the greatest waiter is taken. A future dropped after its permit was sent and before its guard exists is no event of the model: the code does not give that permit back.
- RequestGate.Gate.CallerGone: nothing of the gate changes; the caller's channel does.
- StreamToolScanner: `finalize`, which only calls a parser, and the detection of the model family.
- ThinkSplit: `prompt_opens_thinking`, a comparison of two positions, and the registration of split markers.
- Mistral: the reader of bare JSON is a parameter; call ids are left out.
- MistralRoundTrip.RoundTrip: names that JSON would have to escape are outside it, because the renderer does not escape them.
- Json: the depth counter is unbounded, and texts are characters rather than bytes.
- Json.PrintedIsFound: written values only; a number is any text of digits, sign, point and exponent.
- Dsml: the JSON library, whose parser and writer are parameters, and the ids that calls are given.
- The other tool-call syntaxes (Hermes, Llama, Harmony, DeepSeek V3 and the lenient fallbacks) have no inverse to prove or repeat one proved here.
- RateLimiter: a bucket is a value in the limiter's map rather than an object of its own, because nothing else refers to it; the lock makes a call one step, with one clock reading.
- RateLimiterBound.HoldsRateIff: a stretch runs from one call of a client to its last; a stretch that ends earlier is one of a shorter run.
- EnergyMeter: the interpolation of sampled series and the split into prefill and decode, the discovery of domains, and reports in other units.
- EnergyMeter.LapIsExactIff: the counter is taken modulo the known range, as the code adds it back; a counter that also shows the range itself would be one microjoule short at every wrap.
- EnergyRuns: settings are a parameter, and a dropped request's share is kept only to count it.
- EditDistance: normalising words, and the scores computed from the sums.
- Request metrics, configuration, command line, clients, media limits, the cluster planner and the web pages: plumbing or code that is not part of this model.

/**
 The priority request gate: at most `max` requests run at once, the rest queue, and a released
 permit goes straight to the best waiter. Every locked section is one step. What a caller outside
 the lock is doing (waiting, woken but not yet running, gone, dropping its guard later) is part of
 the state, because that is where permits get lost.
 */
module RequestGate {
  import opened Text

  datatype Priority = Batch | Interactive | Fim
  {
    function Rank(): nat {
      match this case Batch => 0 case Interactive => 1 case Fim => 2
    }
  }

  datatype Waiter = Waiter(priority: Priority, seqNo: nat, reqId: nat)

  /** Higher priority first; within one priority, the lower sequence number. */
  predicate Above(w: Waiter, v: Waiter) {
    w.priority.Rank() > v.priority.Rank() || (w.priority.Rank() == v.priority.Rank() && w.seqNo < v.seqNo)
  }

  datatype RequestState = IsQueued | IsRunning

  /** Where a caller stands: it has its request id; it waits on its channel; a permit was sent to it;
      it holds its guard; it dropped the guard but the release is still to come; it went away while
      queued; it is through with the gate. */
  datatype Stage = Starting | Waiting | Woken | Running | Releasing | Gone | Over

  /** A permit handed to a request: who, at what priority, and as which arrival. */
  datatype Grant = Grant(reqId: nat, priority: Priority, arrival: nat)

  /** The gate's own state, the callers', and two histories: the order in which requests came to the
      gate and the permits it gave out. */
  datatype State = State(inFlight: nat, waiters: set<Waiter>, tracked: map<nat, RequestState>,
                         seqCounter: nat, reqCounter: nat,
                         stages: map<nat, Stage>, priorities: map<nat, Priority>,
                         arrivals: map<nat, nat>, grants: seq<Grant>)

  const EMPTY_GATE := State(0, {}, map[], 0, 0, map[], map[], map[], [])

  /** No other waiter in the heap ranks above this one. */
  ghost predicate IsGreatest(ws: set<Waiter>, w: Waiter) {
    w in ws && forall v | v in ws :: !Above(v, w)
  }

  ghost predicate SeqNosDiffer(ws: set<Waiter>) {
    forall v, w | v in ws && w in ws && v.seqNo == w.seqNo :: v == w
  }

  lemma {:induction false} GreatestExists(ws: set<Waiter>)
    requires ws != {}
    ensures exists w :: IsGreatest(ws, w)
    decreases |ws|
  {
    var w :| w in ws;
    var rest := ws - {w};
    if rest == {} {
      assert ws == {w};
      assert IsGreatest(ws, w);
    } else {
      GreatestExists(rest);
      var g :| IsGreatest(rest, g);
      var top := if Above(w, g) then w else g;
      forall v | v in ws
        ensures !Above(v, top)
      {
        assert v == w || v in rest;
      }
      assert IsGreatest(ws, top);
    }
  }

  lemma GreatestIsUnique(ws: set<Waiter>, v: Waiter, w: Waiter)
    requires SeqNosDiffer(ws) && IsGreatest(ws, v) && IsGreatest(ws, w)
    ensures v == w
  {}

  /** The top of the heap. */
  ghost function Greatest(ws: set<Waiter>): (w: Waiter)
    requires ws != {}
    ensures IsGreatest(ws, w)
  {
    GreatestExists(ws);
    var w :| IsGreatest(ws, w);
    w
  }

  // ----- The locked sections -----

  /** A permit reaches request `id`. */
  ghost function Granted(s: State, id: nat, stage: Stage): State {
    s.(stages := s.stages[id := stage],
       grants := if id in s.priorities && id in s.arrivals
                 then s.grants + [Grant(id, s.priorities[id], s.arrivals[id])] else s.grants)
  }

  /** A waiter leaves the heap and its send succeeds. */
  ghost function HandedTo(s: State, w: Waiter): State {
    Granted(s.(waiters := s.waiters - {w}), w.reqId, Woken)
  }

  /** A dead waiter leaves the heap, and its entry goes with it. */
  ghost function Skipped(s: State, w: Waiter): State {
    s.(waiters := s.waiters - {w}, tracked := s.tracked - {w.reqId})
  }

  /** The receiver is still there. */
  predicate Alive(s: State, w: Waiter) {
    w.reqId in s.stages && s.stages[w.reqId].Waiting?
  }

  /** Hand the permit in hand to the best waiter that is still there; drop the ones that are not. */
  ghost function Release(s: State): State
    decreases |s.waiters|
  {
    if s.waiters == {} then s.(inFlight := if s.inFlight == 0 then 0 else s.inFlight - 1)
    else if Alive(s, Greatest(s.waiters)) then HandedTo(s, Greatest(s.waiters))
    else Release(Skipped(s, Greatest(s.waiters)))
  }

  /** A request takes its id, before it comes to the lock. */
  ghost function Begin(s: State, priority: Priority): State {
    s.(reqCounter := s.reqCounter + 1,
       stages := s.stages[s.reqCounter := Starting],
       priorities := s.priorities[s.reqCounter := priority])
  }

  /** The request comes to the lock: it runs at once, or it queues. */
  ghost function Enter(s: State, max: nat, id: nat): State
    requires id in s.priorities
  {
    var here := s.(arrivals := s.arrivals[id := |s.arrivals|]);
    if s.inFlight < max then
      Granted(here.(inFlight := s.inFlight + 1, tracked := s.tracked[id := IsRunning]), id, Running)
    else
      here.(waiters := s.waiters + {Waiter(s.priorities[id], s.seqCounter, id)},
            seqCounter := s.seqCounter + 1,
            tracked := s.tracked[id := IsQueued],
            stages := s.stages[id := Waiting])
  }

  /** A woken request marks itself running and gets its guard. */
  ghost function Wake(s: State, id: nat): State {
    s.(tracked := if id in s.tracked then s.tracked[id := IsRunning] else s.tracked,
       stages := s.stages[id := Running])
  }

  ghost function Without(ws: set<Waiter>, id: nat): set<Waiter> {
    set w | w in ws && w.reqId != id
  }

  /** The deadline fires: leave the queue, or give back the permit that was already on its way. */
  ghost function TimeOut(s: State, id: nat): State
    requires id in s.stages
  {
    var left := s.(waiters := Without(s.waiters, id), tracked := s.tracked - {id}, stages := s.stages[id := Over]);
    if left.waiters == s.waiters && s.stages[id].Woken? then Release(left) else left
  }

  /** The caller's future is dropped while it is queued; its waiter stays in the heap. */
  ghost function Disconnect(s: State, id: nat): State {
    s.(stages := s.stages[id := Gone])
  }

  /** A guard is dropped and the lock is free, or a deferred release gets the lock at last. */
  ghost function DropGuard(s: State, id: nat): State {
    Release(s.(tracked := s.tracked - {id}, stages := s.stages[id := Over]))
  }

  /** A guard is dropped while the lock is taken: the release is left to a task of its own. */
  ghost function DeferDrop(s: State, id: nat): State {
    s.(stages := s.stages[id := Releasing])
  }

  // ----- What every step keeps -----

  /** The requests a permit is with: sent to, held by, or about to be given back by. */
  ghost function Permits(stages: map<nat, Stage>): set<nat> {
    set id | id in stages && stages[id] in {Woken, Running, Releasing}
  }

  ghost function Ids(ws: set<Waiter>): set<nat> { set w | w in ws :: w.reqId }

  /** No permit is lost or made up, with `inHand` of them out of the callers' hands. */
  ghost predicate Counted(inFlight: nat, ws: set<Waiter>, stages: map<nat, Stage>, max: nat, inHand: nat) {
    && inFlight == |Permits(stages)| + inHand <= max
    && (ws != {} ==> inFlight == max)
  }

  /** The gate tracks exactly the requests that hold a permit or wait for one. */
  ghost predicate Tracked(tracked: map<nat, RequestState>, ws: set<Waiter>, stages: map<nat, Stage>) {
    && tracked.Keys == Permits(stages) + Ids(ws)
    && (forall id | id in tracked && id in stages ::
          tracked[id] == if stages[id] in {Running, Releasing} then IsRunning else IsQueued)
  }

  ghost predicate Distinct(ws: set<Waiter>, seqCounter: nat) {
    && SeqNosDiffer(ws)
    && (forall v, w | v in ws && w in ws && v.reqId == w.reqId :: v == w)
    && (forall w | w in ws :: w.seqNo < seqCounter)
  }

  /** The heap holds exactly the requests that wait or went away waiting. */
  ghost predicate Queued(ws: set<Waiter>, stages: map<nat, Stage>) {
    && (forall w | w in ws :: w.reqId in stages && stages[w.reqId] in {Waiting, Gone})
    && (forall id | id in stages && stages[id].Waiting? :: id in Ids(ws))
  }

  /** Every request has its number, its priority, and, once it came to the lock, its place. */
  ghost predicate Known(stages: map<nat, Stage>, priorities: map<nat, Priority>, arrivals: map<nat, nat>, reqCounter: nat) {
    && stages.Keys == priorities.Keys
    && arrivals.Keys <= stages.Keys
    && (forall id | id in stages :: id < reqCounter && (id in arrivals <==> !stages[id].Starting?))
    && (forall id | id in arrivals :: arrivals[id] < |arrivals|)
  }

  /** A waiter carries its request's priority, and waiters came to the lock in the order of their
      sequence numbers. */
  ghost predicate Ranked(ws: set<Waiter>, priorities: map<nat, Priority>, arrivals: map<nat, nat>) {
    && (forall w | w in ws :: w.reqId in arrivals && w.reqId in priorities && priorities[w.reqId] == w.priority)
    && (forall v, w | v in ws && w in ws && v.seqNo < w.seqNo && v.reqId in arrivals && w.reqId in arrivals ::
          arrivals[v.reqId] < arrivals[w.reqId])
  }

  /** Within one priority, permits went out in the order of arrival, and to no one who came after
      somebody still queued. */
  ghost predicate InOrder(grants: seq<Grant>, ws: set<Waiter>, arrivals: map<nat, nat>) {
    && (forall i | 0 <= i < |grants| :: grants[i].arrival < |arrivals|)
    && (forall i, w | 0 <= i < |grants| && w in ws && w.reqId in arrivals && grants[i].priority == w.priority ::
          grants[i].arrival < arrivals[w.reqId])
    && Increasing(grants)
  }

  ghost predicate Increasing(grants: seq<Grant>) {
    forall i, j | 0 <= i < j < |grants| && grants[i].priority == grants[j].priority ::
      grants[i].arrival < grants[j].arrival
  }

  /** What is conserved. */
  ghost predicate Conserved(s: State, max: nat, inHand: nat) {
    && Counted(s.inFlight, s.waiters, s.stages, max, inHand)
    && Tracked(s.tracked, s.waiters, s.stages)
    && Distinct(s.waiters, s.seqCounter)
    && Queued(s.waiters, s.stages)
  }

  /** What is fair. */
  ghost predicate Fair(s: State) {
    && Known(s.stages, s.priorities, s.arrivals, s.reqCounter)
    && Ranked(s.waiters, s.priorities, s.arrivals)
    && InOrder(s.grants, s.waiters, s.arrivals)
  }

  ghost predicate Inv(s: State, max: nat, inHand: nat) {
    Conserved(s, max, inHand) && Fair(s)
  }

  // How the parts change when one request moves.

  /** A request moves between stages that hold no permit, or between stages that hold one. */
  lemma PermitsSame(stages: map<nat, Stage>, id: nat, stage: Stage)
    requires stage in {Woken, Running, Releasing} <==> id in Permits(stages)
    ensures Permits(stages[id := stage]) == Permits(stages)
  {}

  lemma PermitTaken(stages: map<nat, Stage>, id: nat, stage: Stage)
    requires stage in {Woken, Running, Releasing} && id !in Permits(stages)
    ensures Permits(stages[id := stage]) == Permits(stages) + {id}
    ensures |Permits(stages[id := stage])| == |Permits(stages)| + 1
  {
    assert Permits(stages[id := stage]) == Permits(stages) + {id};
  }

  lemma PermitGiven(stages: map<nat, Stage>, id: nat, stage: Stage)
    requires stage !in {Woken, Running, Releasing} && id in Permits(stages)
    ensures Permits(stages[id := stage]) == Permits(stages) - {id}
    ensures |Permits(stages[id := stage])| == |Permits(stages)| - 1
  {
    assert Permits(stages[id := stage]) == Permits(stages) - {id};
  }

  lemma IdLeaves(ws: set<Waiter>, w: Waiter, seqCounter: nat)
    requires Distinct(ws, seqCounter) && w in ws
    ensures Ids(ws - {w}) == Ids(ws) - {w.reqId}
  {}

  lemma IdJoins(ws: set<Waiter>, w: Waiter)
    ensures Ids(ws + {w}) == Ids(ws) + {w.reqId}
  {}

  /** A request that is not in the heap changes its stage. */
  lemma QueuedStage(ws: set<Waiter>, stages: map<nat, Stage>, id: nat, stage: Stage)
    requires Queued(ws, stages) && id in stages && stages[id] !in {Waiting, Gone} && !stage.Waiting?
    ensures id !in Ids(ws) && Queued(ws, stages[id := stage])
  {}

  /** A permit holder's entry follows its stage. */
  lemma TrackedStage(tracked: map<nat, RequestState>, ws: set<Waiter>, stages: map<nat, Stage>, id: nat, stage: Stage)
    requires Tracked(tracked, ws, stages) && id in Permits(stages) && stage in {Running, Releasing}
    ensures id in tracked && Tracked(tracked[id := IsRunning], ws, stages[id := stage])
  {
    PermitsSame(stages, id, stage);
  }

  /** A request with a permit leaves, and its entry goes with it. */
  lemma TrackedGiven(tracked: map<nat, RequestState>, ws: set<Waiter>, stages: map<nat, Stage>, id: nat)
    requires Tracked(tracked, ws, stages) && id in Permits(stages) && id !in Ids(ws)
    ensures Tracked(tracked - {id}, ws, stages[id := Over])
  {
    PermitGiven(stages, id, Over);
  }

  lemma TrackedTaken(tracked: map<nat, RequestState>, ws: set<Waiter>, stages: map<nat, Stage>, id: nat)
    requires Tracked(tracked, ws, stages) && id !in Permits(stages)
    ensures Tracked(tracked[id := IsRunning], ws, stages[id := Running])
  {
    PermitTaken(stages, id, Running);
  }

  lemma TrackedJoins(tracked: map<nat, RequestState>, ws: set<Waiter>, stages: map<nat, Stage>, w: Waiter)
    requires Tracked(tracked, ws, stages) && w.reqId !in Permits(stages)
    ensures Tracked(tracked[w.reqId := IsQueued], ws + {w}, stages[w.reqId := Waiting])
  {
    PermitsSame(stages, w.reqId, Waiting);
    IdJoins(ws, w);
  }

  // The release.

  lemma HandedTracks(s: State, max: nat, w: Waiter)
    requires Conserved(s, max, 1) && w in s.waiters && Alive(s, w)
    ensures Tracked(s.tracked, s.waiters - {w}, s.stages[w.reqId := Woken])
  {
    PermitTaken(s.stages, w.reqId, Woken);
    IdLeaves(s.waiters, w, s.seqCounter);
  }

  lemma HandedConserves(s: State, max: nat, w: Waiter)
    requires Conserved(s, max, 1) && w in s.waiters && Alive(s, w)
    ensures Conserved(HandedTo(s, w), max, 0)
  {
    PermitTaken(s.stages, w.reqId, Woken);
    IdLeaves(s.waiters, w, s.seqCounter);
    HandedTracks(s, max, w);
  }

  lemma HandedInOrder(grants: seq<Grant>, ws: set<Waiter>, arrivals: map<nat, nat>, priorities: map<nat, Priority>, w: Waiter)
    requires InOrder(grants, ws, arrivals) && Ranked(ws, priorities, arrivals)
    requires SeqNosDiffer(ws) && IsGreatest(ws, w)
    requires w.reqId in arrivals && arrivals[w.reqId] < |arrivals|
    ensures InOrder(grants + [Grant(w.reqId, w.priority, arrivals[w.reqId])], ws - {w}, arrivals)
  {
    var rest := ws - {w};
    forall v | v in rest && v.reqId in arrivals && v.priority == w.priority
      ensures arrivals[w.reqId] < arrivals[v.reqId]
    {
      assert !Above(v, w) && v.seqNo != w.seqNo;
    }
  }

  /** The permit goes to the best waiter of all, so no one of its priority is overtaken. */
  lemma HandedIsFair(s: State, w: Waiter)
    requires Fair(s) && SeqNosDiffer(s.waiters) && IsGreatest(s.waiters, w) && Alive(s, w)
    ensures Fair(HandedTo(s, w))
  {
    HandedInOrder(s.grants, s.waiters, s.arrivals, s.priorities, w);
  }

  lemma SkippedConserves(s: State, max: nat, w: Waiter)
    requires Conserved(s, max, 1) && w in s.waiters && !Alive(s, w)
    ensures Conserved(Skipped(s, w), max, 1)
  {
    IdLeaves(s.waiters, w, s.seqCounter);
  }

  lemma SkippedIsFair(s: State, w: Waiter)
    requires Fair(s)
    ensures Fair(Skipped(s, w))
  {}

  /** Nobody is left in the queue: the slot is free again. */
  lemma FreedConserves(s: State, max: nat)
    requires Conserved(s, max, 1) && s.waiters == {}
    ensures s.inFlight > 0 && Conserved(s.(inFlight := s.inFlight - 1), max, 0)
  {}

  lemma {:induction false} ReleaseConserves(s: State, max: nat)
    requires Conserved(s, max, 1)
    ensures Conserved(Release(s), max, 0)
    decreases |s.waiters|
  {
    if s.waiters == {} {
      FreedConserves(s, max);
    } else if Alive(s, Greatest(s.waiters)) {
      HandedConserves(s, max, Greatest(s.waiters));
    } else {
      SkippedConserves(s, max, Greatest(s.waiters));
      ReleaseConserves(Skipped(s, Greatest(s.waiters)), max);
    }
  }

  lemma {:induction false} ReleaseIsFair(s: State)
    requires SeqNosDiffer(s.waiters) && Fair(s)
    ensures Fair(Release(s))
    decreases |s.waiters|
  {
    if s.waiters != {} {
      if Alive(s, Greatest(s.waiters)) {
        HandedIsFair(s, Greatest(s.waiters));
      } else {
        SkippedIsFair(s, Greatest(s.waiters));
        ReleaseIsFair(Skipped(s, Greatest(s.waiters)));
      }
    }
  }

  // The other sections.

  lemma BeginConserves(s: State, max: nat, priority: Priority)
    requires Conserved(s, max, 0) && s.reqCounter !in s.stages
    ensures Conserved(Begin(s, priority), max, 0)
  {
    PermitsSame(s.stages, s.reqCounter, Starting);
  }

  lemma BeginIsFair(s: State, priority: Priority)
    requires Fair(s)
    ensures s.reqCounter !in s.stages && Fair(Begin(s, priority))
  {
    assert s.reqCounter !in s.arrivals;
  }

  lemma ArrivalKnown(s: State, id: nat, stage: Stage)
    requires Known(s.stages, s.priorities, s.arrivals, s.reqCounter) && id in s.stages && s.stages[id].Starting?
    requires stage != Starting
    ensures id !in s.arrivals && |s.arrivals[id := |s.arrivals|]| == |s.arrivals| + 1
    ensures Known(s.stages[id := stage], s.priorities, s.arrivals[id := |s.arrivals|], s.reqCounter)
  {
  }

  lemma ArrivalInOrder(grants: seq<Grant>, ws: set<Waiter>, arrivals: map<nat, nat>, id: nat)
    requires InOrder(grants, ws, arrivals) && id !in arrivals
    requires forall w | w in ws :: w.reqId in arrivals
    ensures InOrder(grants, ws, arrivals[id := |arrivals|])
  {
    assert |arrivals[id := |arrivals|]| == |arrivals| + 1;
  }

  /** A new arrival runs at once only when nobody is queued. */
  lemma FastPathConserves(s: State, max: nat, id: nat)
    requires Conserved(s, max, 0) && id in s.stages && s.stages[id].Starting? && s.inFlight < max
    requires id in s.priorities
    ensures s.waiters == {} && Enter(s, max, id).stages[id].Running?
    ensures Conserved(Enter(s, max, id), max, 0)
  {
    PermitTaken(s.stages, id, Running);
    TrackedTaken(s.tracked, s.waiters, s.stages, id);
    QueuedStage(s.waiters, s.stages, id, Running);
  }

  lemma GrantInOrder(grants: seq<Grant>, arrivals: map<nat, nat>, g: Grant)
    requires InOrder(grants, {}, arrivals) && g.arrival < |arrivals|
    requires forall i | 0 <= i < |grants| :: grants[i].arrival < g.arrival
    ensures InOrder(grants + [g], {}, arrivals)
  {}

  lemma FastPathIsFair(s: State, max: nat, id: nat)
    requires Fair(s) && id in s.stages && s.stages[id].Starting? && s.inFlight < max && s.waiters == {}
    ensures Fair(Enter(s, max, id))
  {
    ArrivalKnown(s, id, Running);
    ArrivalInOrder(s.grants, {}, s.arrivals, id);
    GrantInOrder(s.grants, s.arrivals[id := |s.arrivals|], Grant(id, s.priorities[id], |s.arrivals|));
  }

  lemma JoinDistinct(ws: set<Waiter>, stages: map<nat, Stage>, w: Waiter, seqCounter: nat)
    requires Distinct(ws, seqCounter) && Queued(ws, stages) && w.seqNo == seqCounter
    requires w.reqId in stages && stages[w.reqId].Starting?
    ensures Distinct(ws + {w}, seqCounter + 1)
  {}

  lemma JoinQueued(ws: set<Waiter>, stages: map<nat, Stage>, w: Waiter)
    requires Queued(ws, stages) && w.reqId in stages && stages[w.reqId].Starting?
    ensures Queued(ws + {w}, stages[w.reqId := Waiting])
  {
    IdJoins(ws, w);
  }

  lemma SlowPathConserves(s: State, max: nat, id: nat)
    requires Conserved(s, max, 0) && id in s.stages && s.stages[id].Starting? && s.inFlight >= max
    requires id in s.priorities
    ensures Conserved(Enter(s, max, id), max, 0)
  {
    var w := Waiter(s.priorities[id], s.seqCounter, id);
    PermitsSame(s.stages, id, Waiting);
    TrackedJoins(s.tracked, s.waiters, s.stages, w);
    JoinDistinct(s.waiters, s.stages, w, s.seqCounter);
    JoinQueued(s.waiters, s.stages, w);
  }

  lemma JoinInOrder(grants: seq<Grant>, ws: set<Waiter>, arrivals: map<nat, nat>, w: Waiter)
    requires InOrder(grants, ws, arrivals) && w.reqId in arrivals
    requires forall i | 0 <= i < |grants| :: grants[i].arrival < arrivals[w.reqId]
    ensures InOrder(grants, ws + {w}, arrivals)
  {}

  lemma JoinRanked(ws: set<Waiter>, priorities: map<nat, Priority>, arrivals: map<nat, nat>, w: Waiter)
    requires Ranked(ws, priorities, arrivals) && w.reqId !in arrivals && w.reqId in priorities
    requires priorities[w.reqId] == w.priority
    requires forall v | v in ws :: v.seqNo < w.seqNo
    requires forall id | id in arrivals :: arrivals[id] < |arrivals|
    ensures Ranked(ws + {w}, priorities, arrivals[w.reqId := |arrivals|])
  {}

  lemma SlowPathIsFair(s: State, max: nat, id: nat)
    requires Fair(s) && Distinct(s.waiters, s.seqCounter)
    requires id in s.stages && s.stages[id].Starting? && s.inFlight >= max
    ensures Fair(Enter(s, max, id))
  {
    var w := Waiter(s.priorities[id], s.seqCounter, id);
    ArrivalKnown(s, id, Waiting);
    ArrivalInOrder(s.grants, s.waiters, s.arrivals, id);
    JoinInOrder(s.grants, s.waiters, s.arrivals[id := |s.arrivals|], w);
    JoinRanked(s.waiters, s.priorities, s.arrivals, w);
  }

  lemma WakeConserves(s: State, max: nat, id: nat)
    requires Conserved(s, max, 0) && id in s.stages && s.stages[id].Woken?
    ensures Conserved(Wake(s, id), max, 0)
  {
    PermitsSame(s.stages, id, Running);
    TrackedStage(s.tracked, s.waiters, s.stages, id, Running);
    QueuedStage(s.waiters, s.stages, id, Running);
  }

  lemma DisconnectConserves(s: State, max: nat, id: nat)
    requires Conserved(s, max, 0) && id in s.stages && s.stages[id].Waiting?
    ensures Conserved(Disconnect(s, id), max, 0)
  {
    PermitsSame(s.stages, id, Gone);
  }

  lemma DeferDropConserves(s: State, max: nat, id: nat)
    requires Conserved(s, max, 0) && id in s.stages && s.stages[id].Running?
    ensures Conserved(DeferDrop(s, id), max, 0)
  {
    PermitsSame(s.stages, id, Releasing);
    TrackedStage(s.tracked, s.waiters, s.stages, id, Releasing);
    assert s.tracked[id := IsRunning] == s.tracked;
    QueuedStage(s.waiters, s.stages, id, Releasing);
  }

  /** A step that only moves a request on from one stage to another keeps the order. */
  lemma MovesOn(s: State, s': State, id: nat, stage: Stage)
    requires Fair(s) && id in s.stages && !s.stages[id].Starting? && !stage.Starting?
    requires s'.stages == s.stages[id := stage] && s'.waiters <= s.waiters && s'.grants == s.grants
    requires s'.arrivals == s.arrivals && s'.priorities == s.priorities && s'.reqCounter == s.reqCounter
    ensures Fair(s')
  {}

  /** A request gives its permit back: from here to the end of the release it is in no one's hands. */
  ghost function GivenBack(s: State, id: nat): State {
    s.(tracked := s.tracked - {id}, stages := s.stages[id := Over])
  }

  lemma GivenBackConserves(s: State, max: nat, id: nat)
    requires Conserved(s, max, 0) && id in Permits(s.stages)
    ensures id !in Ids(s.waiters) && Conserved(GivenBack(s, id), max, 1)
  {
    PermitGiven(s.stages, id, Over);
    QueuedStage(s.waiters, s.stages, id, Over);
    TrackedGiven(s.tracked, s.waiters, s.stages, id);
  }

  lemma WithoutId(ws: set<Waiter>, id: nat, seqCounter: nat) returns (w: Waiter)
    requires Distinct(ws, seqCounter) && id in Ids(ws)
    ensures w in ws && w.reqId == id && Without(ws, id) == ws - {w}
  {
    w :| w in ws && w.reqId == id;
  }

  /** The deadline passes while the request is queued. */
  lemma LeaveConserves(s: State, max: nat, id: nat)
    requires Conserved(s, max, 0) && id in s.stages && s.stages[id].Waiting?
    ensures Without(s.waiters, id) != s.waiters
    ensures Conserved(TimeOut(s, id), max, 0)
  {
    var w := WithoutId(s.waiters, id, s.seqCounter);
    IdLeaves(s.waiters, w, s.seqCounter);
    PermitsSame(s.stages, id, Over);
  }

  /** The deadline passes after the permit was sent: it is passed on, neither kept nor doubled. */
  lemma RaceReleases(s: State, max: nat, id: nat)
    requires Conserved(s, max, 0) && id in s.stages && s.stages[id].Woken?
    ensures Without(s.waiters, id) == s.waiters
    ensures TimeOut(s, id) == Release(GivenBack(s, id)) && Conserved(TimeOut(s, id), max, 0)
  {
    GivenBackConserves(s, max, id);
    ReleaseConserves(GivenBack(s, id), max);
  }

  lemma DropGuardConserves(s: State, max: nat, id: nat)
    requires Conserved(s, max, 0) && id in s.stages && s.stages[id] in {Running, Releasing}
    ensures Conserved(DropGuard(s, id), max, 0)
  {
    GivenBackConserves(s, max, id);
    ReleaseConserves(GivenBack(s, id), max);
  }

  // ----- Whole runs -----

  datatype Event =
    | Begins(priority: Priority)
    | Enters(id: nat)
    | Wakes(id: nat)
    | TimesOut(id: nat)
    | Disconnects(id: nat)
    | DropsGuard(id: nat)
    | DefersDrop(id: nat)
    | FinishesDrop(id: nat)

  predicate Can(s: State, e: Event) {
    match e
    case Begins(_) => true
    case Enters(id) => id in s.stages && s.stages[id].Starting?
    case Wakes(id) => id in s.stages && s.stages[id].Woken?
    case TimesOut(id) => id in s.stages && s.stages[id] in {Waiting, Woken}
    case Disconnects(id) => id in s.stages && s.stages[id].Waiting?
    case DropsGuard(id) => id in s.stages && s.stages[id].Running?
    case DefersDrop(id) => id in s.stages && s.stages[id].Running?
    case FinishesDrop(id) => id in s.stages && s.stages[id].Releasing?
  }

  ghost function Next(s: State, max: nat, e: Event): State
    requires Can(s, e)
  {
    match e
    case Begins(priority) => Begin(s, priority)
    case Enters(id) => if id in s.priorities then Enter(s, max, id) else s
    case Wakes(id) => Wake(s, id)
    case TimesOut(id) => TimeOut(s, id)
    case Disconnects(id) => Disconnect(s, id)
    case DropsGuard(id) => DropGuard(s, id)
    case DefersDrop(id) => DeferDrop(s, id)
    case FinishesDrop(id) => DropGuard(s, id)
  }

  lemma NextConserves(s: State, max: nat, e: Event)
    requires Inv(s, max, 0) && Can(s, e)
    ensures Conserved(Next(s, max, e), max, 0)
  {
    match e
    case Begins(priority) =>
      BeginIsFair(s, priority);
      BeginConserves(s, max, priority);
    case Enters(id) =>
      if s.inFlight < max {
        FastPathConserves(s, max, id);
      } else {
        SlowPathConserves(s, max, id);
      }
    case Wakes(id) => WakeConserves(s, max, id);
    case TimesOut(id) =>
      if s.stages[id].Waiting? {
        LeaveConserves(s, max, id);
      } else {
        RaceReleases(s, max, id);
      }
    case Disconnects(id) => DisconnectConserves(s, max, id);
    case DropsGuard(id) => DropGuardConserves(s, max, id);
    case DefersDrop(id) => DeferDropConserves(s, max, id);
    case FinishesDrop(id) => DropGuardConserves(s, max, id);
  }

  lemma NextIsFair(s: State, max: nat, e: Event)
    requires Inv(s, max, 0) && Can(s, e)
    ensures Fair(Next(s, max, e))
  {
    match e
    case Begins(priority) => BeginIsFair(s, priority);
    case Enters(id) =>
      if s.inFlight < max {
        FastPathIsFair(s, max, id);
      } else {
        SlowPathIsFair(s, max, id);
      }
    case Wakes(id) => MovesOn(s, Wake(s, id), id, Running);
    case TimesOut(id) =>
      if s.stages[id].Waiting? {
        LeaveConserves(s, max, id);
        MovesOn(s, TimeOut(s, id), id, Over);
      } else {
        RaceReleases(s, max, id);
        MovesOn(s, GivenBack(s, id), id, Over);
        ReleaseIsFair(GivenBack(s, id));
      }
    case Disconnects(id) => MovesOn(s, Disconnect(s, id), id, Gone);
    case DefersDrop(id) => MovesOn(s, DeferDrop(s, id), id, Releasing);
    case DropsGuard(id) =>
      MovesOn(s, GivenBack(s, id), id, Over);
      ReleaseIsFair(GivenBack(s, id));
    case FinishesDrop(id) =>
      MovesOn(s, GivenBack(s, id), id, Over);
      ReleaseIsFair(GivenBack(s, id));
  }

  /** Every step keeps the invariant. */
  lemma NextKeeps(s: State, max: nat, e: Event)
    requires Inv(s, max, 0) && Can(s, e)
    ensures Inv(Next(s, max, e), max, 0)
  {
    NextConserves(s, max, e);
    NextIsFair(s, max, e);
  }

  /** A run of the gate: any events, in any order, that the callers can bring about. */
  ghost predicate Runs(s: State, max: nat, events: seq<Event>)
    decreases |events|
  {
    events != [] ==> Can(s, events[0]) && Runs(Next(s, max, events[0]), max, events[1..])
  }

  ghost function After(s: State, max: nat, events: seq<Event>): State
    requires Runs(s, max, events)
    decreases |events|
  {
    if events == [] then s else After(Next(s, max, events[0]), max, events[1..])
  }

  lemma {:induction false} RunKeeps(s: State, max: nat, events: seq<Event>)
    requires Inv(s, max, 0) && Runs(s, max, events)
    ensures Inv(After(s, max, events), max, 0)
    decreases |events|
  {
    if events != [] {
      NextKeeps(s, max, events[0]);
      RunKeeps(Next(s, max, events[0]), max, events[1..]);
    }
  }

  lemma EmptyIsSound(max: nat)
    ensures Inv(EMPTY_GATE, max, 0)
  {
    assert Permits(EMPTY_GATE.stages) == {};
  }

  lemma {:induction false} IdsCount(ws: set<Waiter>, seqCounter: nat)
    requires Distinct(ws, seqCounter)
    ensures |Ids(ws)| == |ws|
    decreases |ws|
  {
    if ws != {} {
      var w :| w in ws;
      IdLeaves(ws, w, seqCounter);
      IdsCount(ws - {w}, seqCounter);
    }
  }

  /** After any run: the permits in flight are exactly those sent to a request, held by one, or about
      to be given back; there are never more of them than slots; every tracked request is either
      one of those or queued; and nobody queues while a slot is free. */
  lemma NoPermitIsLost(max: nat, events: seq<Event>)
    requires Runs(EMPTY_GATE, max, events)
    ensures
      var s := After(EMPTY_GATE, max, events);
      && s.inFlight == |Permits(s.stages)| <= max
      && s.tracked.Keys == Permits(s.stages) + Ids(s.waiters) && Permits(s.stages) !! Ids(s.waiters)
      && |s.tracked| == s.inFlight + |s.waiters|
      && (s.waiters != {} ==> s.inFlight == max)
  {
    EmptyIsSound(max);
    RunKeeps(EMPTY_GATE, max, events);
    var s := After(EMPTY_GATE, max, events);
    IdsCount(s.waiters, s.seqCounter);
    assert Permits(s.stages) !! Ids(s.waiters);
    assert |s.tracked.Keys| == |Permits(s.stages)| + |Ids(s.waiters)|;
  }

  /** After any run: within each priority, permits went out in the order in which the requests came
      to the gate, fast path included. */
  lemma GrantsFollowArrival(max: nat, events: seq<Event>)
    requires Runs(EMPTY_GATE, max, events)
    ensures Increasing(After(EMPTY_GATE, max, events).grants)
  {
    EmptyIsSound(max);
    RunKeeps(EMPTY_GATE, max, events);
  }

  /** A queued request is never stranded: with at least one slot, somebody holds a permit that will
      come back through the gate. */
  lemma NobodyIsStranded(max: nat, events: seq<Event>, id: nat)
    requires max > 0 && Runs(EMPTY_GATE, max, events)
    requires id in After(EMPTY_GATE, max, events).stages && After(EMPTY_GATE, max, events).stages[id].Waiting?
    ensures Permits(After(EMPTY_GATE, max, events).stages) != {}
  {
    NoPermitIsLost(max, events);
    EmptyIsSound(max);
    RunKeeps(EMPTY_GATE, max, events);
  }

  /** After any run: while anyone is queued, an arrival queues too, and takes no slot. */
  lemma NoOvertakingOnArrival(max: nat, events: seq<Event>, id: nat)
    requires Runs(EMPTY_GATE, max, events) && Can(After(EMPTY_GATE, max, events), Enters(id))
    requires After(EMPTY_GATE, max, events).waiters != {}
    ensures
      var s := After(EMPTY_GATE, max, events);
      var s' := Next(s, max, Enters(id));
      && s'.stages == s.stages[id := Waiting] && s'.inFlight == s.inFlight && s'.grants == s.grants
      && id in s.priorities && s'.waiters == s.waiters + {Waiter(s.priorities[id], s.seqCounter, id)}
  {
    EmptyIsSound(max);
    RunKeeps(EMPTY_GATE, max, events);
  }

  // ----- Whom a released permit reaches -----

  /** The waiters whose receiver is still there. */
  ghost function Live(ws: set<Waiter>, stages: map<nat, Stage>): set<Waiter> {
    set w | w in ws && w.reqId in stages && stages[w.reqId].Waiting?
  }

  ghost function Below(ws: set<Waiter>, w: Waiter): set<Waiter> {
    set v | v in ws && Above(w, v)
  }

  lemma ReleaseStep(s: State, w: Waiter)
    requires SeqNosDiffer(s.waiters) && IsGreatest(s.waiters, w)
    ensures Release(s) == if Alive(s, w) then HandedTo(s, w) else Release(Skipped(s, w))
  {
    GreatestIsUnique(s.waiters, w, Greatest(s.waiters));
  }

  lemma GreatestOfLive(ws: set<Waiter>, stages: map<nat, Stage>, w: Waiter, top: Waiter)
    requires SeqNosDiffer(ws) && IsGreatest(Live(ws, stages), w) && IsGreatest(ws, top)
    ensures top in Live(ws, stages) ==> top == w && ws - {top} == Below(ws, w)
    ensures top !in Live(ws, stages) ==> top != w && Live(ws - {top}, stages) == Live(ws, stages)
    ensures top !in Live(ws, stages) ==> Below(ws - {top}, w) == Below(ws, w)
  {}

  /** The permit reaches the best of the waiters that are still there; the slot stays taken, and what
      is left in the heap is what ranks below. */
  lemma {:induction false} ReleaseFindsTheBest(s: State, w: Waiter)
    requires SeqNosDiffer(s.waiters) && IsGreatest(Live(s.waiters, s.stages), w)
    ensures Release(s).stages == s.stages[w.reqId := Woken] && Release(s).inFlight == s.inFlight
    ensures Release(s).waiters == Below(s.waiters, w) && Release(s).grants == HandedTo(s, w).grants
    decreases |s.waiters|
  {
    var top := Greatest(s.waiters);
    GreatestOfLive(s.waiters, s.stages, w, top);
    if !Alive(s, top) {
      var rest := Skipped(s, top);
      assert SeqNosDiffer(rest.waiters);
      ReleaseFindsTheBest(rest, w);
    }
  }

  /** With no one left there to take the permit, the heap empties and the slot is free. */
  lemma {:induction false} ReleaseFreesTheSlot(s: State)
    requires Live(s.waiters, s.stages) == {}
    ensures Release(s).stages == s.stages && Release(s).waiters == {} && Release(s).grants == s.grants
    ensures Release(s).inFlight == if s.inFlight == 0 then 0 else s.inFlight - 1
    ensures Release(s).tracked == s.tracked - Ids(s.waiters)
    decreases |s.waiters|
  {
    if s.waiters != {} {
      var top := Greatest(s.waiters);
      assert top !in Live(s.waiters, s.stages);
      assert Live(s.waiters - {top}, s.stages) == {};
      ReleaseFreesTheSlot(Skipped(s, top));
      assert s.waiters == (s.waiters - {top}) + {top};
    }
  }

  /** The steps that give a permit back: a guard dropped, a deferred release that gets the lock, a
      deadline that loses the race to its own grant. */
  predicate GivesBack(s: State, e: Event, id: nat) {
    && Can(s, e)
    && (e == DropsGuard(id) || e == FinishesDrop(id) || (e == TimesOut(id) && id in s.stages && s.stages[id].Woken?))
  }

  lemma GivenBackIsReleased(s: State, max: nat, e: Event, id: nat)
    requires Conserved(s, max, 0) && GivesBack(s, e, id)
    ensures Next(s, max, e) == Release(GivenBack(s, id))
  {
    if e == TimesOut(id) {
      RaceReleases(s, max, id);
    }
  }

  /** Whoever gives a permit back was not waiting for one. */
  lemma SameAreLeft(ws: set<Waiter>, stages: map<nat, Stage>, id: nat)
    requires id in stages && !stages[id].Waiting?
    ensures Live(ws, stages[id := Over]) == Live(ws, stages)
  {}

  lemma KeysLeft(tracked: map<nat, RequestState>, ids: set<nat>, permits: set<nat>, id: nat)
    requires tracked.Keys == permits + ids && permits !! ids
    ensures ((tracked - {id}) - ids).Keys == permits - {id}
  {}

  /** After any run, and whichever way a permit comes back: it goes to the best of the waiters that are
      still there, the slot stays taken, and the queue keeps what ranks below that waiter. */
  lemma PermitReachesTheBest(max: nat, events: seq<Event>, e: Event, id: nat, w: Waiter)
    requires Runs(EMPTY_GATE, max, events) && GivesBack(After(EMPTY_GATE, max, events), e, id)
    requires IsGreatest(Live(After(EMPTY_GATE, max, events).waiters, After(EMPTY_GATE, max, events).stages), w)
    ensures
      var s := After(EMPTY_GATE, max, events);
      var s' := Next(s, max, e);
      && s'.stages == s.stages[id := Over][w.reqId := Woken] && s'.inFlight == s.inFlight
      && s'.waiters == Below(s.waiters, w)
      && w.reqId in s.arrivals && s'.grants == s.grants + [Grant(w.reqId, w.priority, s.arrivals[w.reqId])]
  {
    EmptyIsSound(max);
    RunKeeps(EMPTY_GATE, max, events);
    var s := After(EMPTY_GATE, max, events);
    GivenBackIsReleased(s, max, e, id);
    SameAreLeft(s.waiters, s.stages, id);
    ReleaseFindsTheBest(GivenBack(s, id), w);
  }

  // ----- Who that is, by the events alone -----

  /** The priority a request was brought with: that of the event that gave it its id, counted from `id`
      such events on. */
  function Brought(events: seq<Event>, id: nat): Option<Priority>
    decreases |events|
  {
    if events == [] then None
    else match events[0]
      case Begins(priority) => if id == 0 then Some(priority) else Brought(events[1..], id - 1)
      case _ => Brought(events[1..], id)
  }

  /** How many requests came to the lock before it. */
  function Came(events: seq<Event>, id: nat): Option<nat>
    decreases |events|
  {
    if events == [] then None
    else match events[0]
      case Enters(other) =>
        if other == id then Some(0)
        else (match Came(events[1..], id) case None => None case Some(n) => Some(n + 1))
      case _ => Came(events[1..], id)
  }

  lemma {:induction false} ReleaseKeepsNames(s: State)
    ensures Release(s).priorities == s.priorities && Release(s).arrivals == s.arrivals && Release(s).reqCounter == s.reqCounter
    ensures Release(s).stages.Keys >= s.stages.Keys
    decreases |s.waiters|
  {
    if s.waiters != {} && !Alive(s, Greatest(s.waiters)) {
      ReleaseKeepsNames(Skipped(s, Greatest(s.waiters)));
    }
  }

  /** A step names no request anew but for a `Begins`, and gives no place but for an `Enters`. */
  lemma {:induction false} NextNames(s: State, max: nat, e: Event)
    requires Inv(s, max, 0) && Can(s, e)
    ensures
      var s' := Next(s, max, e);
      && s'.reqCounter == s.reqCounter + (if e.Begins? then 1 else 0)
      && s'.priorities == (if e.Begins? then s.priorities[s.reqCounter := e.priority] else s.priorities)
      && s'.arrivals == (if e.Enters? then s.arrivals[e.id := |s.arrivals|] else s.arrivals)
      && (e.Enters? ==> e.id !in s.arrivals && |s'.arrivals| == |s.arrivals| + 1)
      && s.reqCounter !in s.priorities
  {
    match e
    case TimesOut(id) =>
      if s.stages[id].Woken? {
        RaceReleases(s, max, id);
        ReleaseKeepsNames(GivenBack(s, id));
      } else {
        LeaveConserves(s, max, id);
      }
    case DropsGuard(id) => ReleaseKeepsNames(GivenBack(s, id));
    case FinishesDrop(id) => ReleaseKeepsNames(GivenBack(s, id));
    case _ =>
  }

  /** The priority at the end is the one there was, or the one the request is brought with later. */
  predicate IsBrought(priorities: map<nat, Priority>, reqCounter: nat, events: seq<Event>, id: nat, p: Priority) {
    if id in priorities then priorities[id] == p else id >= reqCounter && Brought(events, id - reqCounter) == Some(p)
  }

  lemma {:induction false} BroughtStep(priorities: map<nat, Priority>, reqCounter: nat, events: seq<Event>, id: nat, p: Priority)
    requires events != [] && reqCounter !in priorities
    requires
      var e := events[0];
      IsBrought(if e.Begins? then priorities[reqCounter := e.priority] else priorities,
                reqCounter + (if e.Begins? then 1 else 0), events[1..], id, p)
    ensures IsBrought(priorities, reqCounter, events, id, p)
  {}

  predicate IsCame(arrivals: map<nat, nat>, events: seq<Event>, id: nat, place: nat) {
    if id in arrivals then arrivals[id] == place else Came(events, id).Some? && place == |arrivals| + Came(events, id).value
  }

  lemma {:induction false} CameStep(arrivals: map<nat, nat>, events: seq<Event>, id: nat, place: nat)
    requires events != []
    requires
      var e := events[0];
      && (e.Enters? ==> e.id !in arrivals)
      && IsCame(if e.Enters? then arrivals[e.id := |arrivals|] else arrivals, events[1..], id, place)
    ensures IsCame(arrivals, events, id, place)
  {
    var e := events[0];
    if e.Enters? {
      assert arrivals[e.id := |arrivals|].Keys == arrivals.Keys + {e.id};
      assert |arrivals.Keys + {e.id}| == |arrivals.Keys| + 1;
    }
  }

  /** What the gate knows of a request after a run is what the events said. */
  lemma {:induction false} NamesAreKept(s: State, max: nat, events: seq<Event>, id: nat)
    requires Inv(s, max, 0) && Runs(s, max, events)
    ensures
      var end := After(s, max, events);
      && (id in end.priorities ==> IsBrought(s.priorities, s.reqCounter, events, id, end.priorities[id]))
      && (id in end.arrivals ==> IsCame(s.arrivals, events, id, end.arrivals[id]))
    decreases |events|
  {
    if events != [] {
      NextNames(s, max, events[0]);
      NextKeeps(s, max, events[0]);
      NamesAreKept(Next(s, max, events[0]), max, events[1..], id);
      var end := After(s, max, events);
      if id in end.priorities {
        BroughtStep(s.priorities, s.reqCounter, events, id, end.priorities[id]);
      }
      if id in end.arrivals {
        CameStep(s.arrivals, events, id, end.arrivals[id]);
      }
    }
  }

  /** So a request's priority and its place in line are those of the events that brought it. */
  lemma NamedByEvents(max: nat, events: seq<Event>, id: nat)
    requires Runs(EMPTY_GATE, max, events)
    ensures
      var s := After(EMPTY_GATE, max, events);
      && (id in s.priorities ==> Brought(events, id) == Some(s.priorities[id]))
      && (id in s.arrivals ==> Came(events, id) == Some(s.arrivals[id]))
  {
    EmptyIsSound(max);
    NamesAreKept(EMPTY_GATE, max, events, id);
  }

  /** Code completion before chat, and chat before batches. */
  predicate GoesBefore(p: Priority, q: Priority) {
    (p == Fim && q == Interactive) || (p == Fim && q == Batch) || (p == Interactive && q == Batch)
  }

  lemma AboveIs(ws: set<Waiter>, priorities: map<nat, Priority>, arrivals: map<nat, nat>, w: Waiter, v: Waiter)
    requires SeqNosDiffer(ws) && Ranked(ws, priorities, arrivals) && w in ws && v in ws && w != v && !Above(v, w)
    ensures w.reqId in priorities && v.reqId in priorities && w.reqId in arrivals && v.reqId in arrivals
    ensures GoesBefore(priorities[w.reqId], priorities[v.reqId]) ||
            (priorities[w.reqId] == priorities[v.reqId] && arrivals[w.reqId] < arrivals[v.reqId])
  {}

  /** The best of the waiters that are still there, and the waiter of one of them. */
  lemma BestOfLive(ws: set<Waiter>, stages: map<nat, Stage>, other: nat) returns (w: Waiter, v: Waiter)
    requires Queued(ws, stages) && other in stages && stages[other].Waiting?
    ensures IsGreatest(Live(ws, stages), w) && w in ws && w.reqId in stages && stages[w.reqId].Waiting?
    ensures v in ws && v.reqId == other && !Above(v, w)
  {
    v :| v in ws && v.reqId == other;
    assert v in Live(ws, stages);
    GreatestExists(Live(ws, stages));
    w :| IsGreatest(Live(ws, stages), w);
  }

  /** After any run, and whichever way a permit comes back while `other` waits: it goes to one of those
      that wait, `winner`, and to no other. If that is not `other`, the winner was brought with a priority
      that goes before, or with the same and came to the gate earlier. */
  lemma FirstInLineIsWoken(max: nat, events: seq<Event>, e: Event, id: nat, other: nat) returns (winner: nat)
    requires Runs(EMPTY_GATE, max, events) && GivesBack(After(EMPTY_GATE, max, events), e, id)
    requires other in After(EMPTY_GATE, max, events).stages && After(EMPTY_GATE, max, events).stages[other].Waiting?
    ensures
      var s := After(EMPTY_GATE, max, events);
      winner in s.stages && s.stages[winner].Waiting? && Next(s, max, e).stages == s.stages[id := Over][winner := Woken]
    ensures Brought(events, winner).Some? && Brought(events, other).Some? && Came(events, winner).Some? && Came(events, other).Some?
    ensures winner == other || GoesBefore(Brought(events, winner).value, Brought(events, other).value) ||
            (Brought(events, winner) == Brought(events, other) && Came(events, winner).value < Came(events, other).value)
  {
    EmptyIsSound(max);
    RunKeeps(EMPTY_GATE, max, events);
    var s := After(EMPTY_GATE, max, events);
    var w, v := BestOfLive(s.waiters, s.stages, other);
    winner := w.reqId;
    PermitReachesTheBest(max, events, e, id, w);
    NamedByEvents(max, events, winner);
    NamedByEvents(max, events, other);
    OfWaiters(s, max, w, v);
  }

  lemma OfWaiters(s: State, max: nat, w: Waiter, v: Waiter)
    requires Inv(s, max, 0) && w in s.waiters && v in s.waiters && !Above(v, w)
    ensures w.reqId in s.priorities && v.reqId in s.priorities && w.reqId in s.arrivals && v.reqId in s.arrivals
    ensures w.reqId == v.reqId || GoesBefore(s.priorities[w.reqId], s.priorities[v.reqId]) ||
            (s.priorities[w.reqId] == s.priorities[v.reqId] && s.arrivals[w.reqId] < s.arrivals[v.reqId])
  {
    if w != v {
      AboveIs(s.waiters, s.priorities, s.arrivals, w, v);
    }
  }

  /** After any run: a permit that comes back while no waiter is still there frees its slot, and what
      the gate tracks are the requests that hold the other permits. */
  lemma PermitFreesItsSlot(max: nat, events: seq<Event>, e: Event, id: nat)
    requires Runs(EMPTY_GATE, max, events) && GivesBack(After(EMPTY_GATE, max, events), e, id)
    requires Live(After(EMPTY_GATE, max, events).waiters, After(EMPTY_GATE, max, events).stages) == {}
    ensures
      var s := After(EMPTY_GATE, max, events);
      var s' := Next(s, max, e);
      && s'.inFlight == s.inFlight - 1 && s'.waiters == {} && s'.grants == s.grants
      && s'.stages == s.stages[id := Over] && s'.tracked.Keys == Permits(s.stages) - {id}
  {
    NoPermitIsLost(max, events);
    EmptyIsSound(max);
    RunKeeps(EMPTY_GATE, max, events);
    var s := After(EMPTY_GATE, max, events);
    GivenBackIsReleased(s, max, e, id);
    SameAreLeft(s.waiters, s.stages, id);
    KeysLeft(s.tracked, Ids(s.waiters), Permits(s.stages), id);
    var back := GivenBack(s, id);
    assert back.waiters == s.waiters && back.grants == s.grants && back.inFlight == s.inFlight > 0 by {
      assert id in Permits(s.stages);
    }
    ReleaseFreesTheSlot(back);
  }

  // ----- The gate itself -----

  class Gate {
    const max: nat
    var inFlight: nat
    var waiters: set<Waiter>
    var tracked: map<nat, RequestState>
    var seqCounter: nat
    var reqCounter: nat
    var stages: map<nat, Stage>
    var priorities: map<nat, Priority>
    ghost var arrivals: map<nat, nat>
    ghost var grants: seq<Grant>

    ghost function View(): State
      reads this
    {
      State(inFlight, waiters, tracked, seqCounter, reqCounter, stages, priorities, arrivals, grants)
    }

    /** A gate has at least one slot. */
    constructor (maxInFlight: nat)
      ensures max > 0 && (maxInFlight > 0 ==> max == maxInFlight) && View() == EMPTY_GATE && Inv(View(), max, 0)
    {
      max := if maxInFlight == 0 then 1 else maxInFlight;
      inFlight, seqCounter, reqCounter := 0, 0, 0;
      waiters, tracked, stages, priorities := {}, map[], map[], map[];
      arrivals, grants := map[], [];
      new;
      EmptyIsSound(max);
    }

    /** Take the top of the heap. */
    method Pop() returns (next: Waiter)
      requires SeqNosDiffer(waiters) && waiters != {}
      modifies this`waiters
      ensures IsGreatest(old(waiters), next)
      ensures waiters == old(waiters) - {next} && SeqNosDiffer(waiters)
    {
      GreatestExists(waiters);
      next :| next in waiters && forall v | v in waiters :: !Above(v, next);
      waiters := waiters - {next};
    }

    /** Send the permit in hand to one waiter; it does not land if the receiver is gone. */
    method Send(w: Waiter) returns (landed: bool)
      modifies this
      ensures landed == old(Alive(View(), w))
      ensures View() == if landed then Granted(old(View()), w.reqId, Woken) else old(View())
    {
      landed := w.reqId in stages && stages[w.reqId].Waiting?;
      if landed {
        stages := stages[w.reqId := Woken];
        if w.reqId in priorities && w.reqId in arrivals {
          grants := grants + [Grant(w.reqId, priorities[w.reqId], arrivals[w.reqId])];
        }
      }
    }

    /** Hand the permit onward until it lands, or free the slot. */
    method ReleasePermit()
      requires SeqNosDiffer(waiters)
      modifies this
      ensures View() == Release(old(View()))
    {
      while waiters != {}
        invariant SeqNosDiffer(waiters) && Release(View()) == Release(old(View()))
        decreases |waiters|
      {
        ghost var here := View();
        var next := Pop();
        ReleaseStep(here, next);
        var landed := Send(next);
        if landed {
          return;
        }
        tracked := tracked - {next.reqId};
      }
      if inFlight > 0 {
        inFlight := inFlight - 1;
      }
    }

    /** A request takes its id on the way to the lock. */
    method TakeId(priority: Priority) returns (id: nat)
      modifies this
      ensures id == old(reqCounter) && View() == Next(old(View()), max, Begins(priority))
    {
      id := reqCounter;
      reqCounter := reqCounter + 1;
      stages := stages[id := Starting];
      priorities := priorities[id := priority];
    }

    /** At the lock: run at once if a slot is free, or queue. */
    method Acquire(id: nat) returns (queued: bool)
      requires id in priorities && Can(View(), Enters(id))
      modifies this
      ensures View() == Next(old(View()), max, Enters(id))
      ensures queued == stages[id].Waiting?
    {
      arrivals := arrivals[id := |arrivals|];
      queued := inFlight >= max;
      if !queued {
        inFlight := inFlight + 1;
        tracked := tracked[id := IsRunning];
        stages := stages[id := Running];
        grants := grants + [Grant(id, priorities[id], arrivals[id])];
      } else {
        waiters := waiters + {Waiter(priorities[id], seqCounter, id)};
        seqCounter := seqCounter + 1;
        tracked := tracked[id := IsQueued];
        stages := stages[id := Waiting];
      }
    }

    /** The permit arrived before the deadline. */
    method WakeUp(id: nat)
      requires Can(View(), Wakes(id))
      modifies this
      ensures View() == Next(old(View()), max, Wakes(id))
    {
      if id in tracked {
        tracked := tracked[id := IsRunning];
      }
      stages := stages[id := Running];
    }

    /** The deadline came first, or at the same time as the permit. */
    method GiveUp(id: nat)
      requires SeqNosDiffer(waiters) && Can(View(), TimesOut(id))
      modifies this
      ensures View() == Next(old(View()), max, TimesOut(id))
    {
      var length := |waiters|;
      ghost var queue := waiters;
      var landed := stages[id].Woken?;
      waiters := set w | w in waiters && w.reqId != id;
      assert waiters <= queue && waiters == Without(queue, id);
      ShorterIsSmaller(waiters, queue);
      var wasQueued := |waiters| < length;
      tracked := tracked - {id};
      stages := stages[id := Over];
      if !wasQueued {
        if landed {
          ReleasePermit();
        }
      }
    }

    /** The caller's future is dropped while it waits. */
    method CallerGone(id: nat)
      requires Can(View(), Disconnects(id))
      modifies this
      ensures View() == Next(old(View()), max, Disconnects(id))
    {
      stages := stages[id := Gone];
    }

    /** A guard goes out of scope: released here if the lock is free, by a task of its own if not. */
    method GuardDropped(id: nat, lockIsFree: bool)
      requires SeqNosDiffer(waiters) && Can(View(), DropsGuard(id))
      modifies this
      ensures View() == Next(old(View()), max, if lockIsFree then DropsGuard(id) else DefersDrop(id))
    {
      if lockIsFree {
        tracked := tracked - {id};
        stages := stages[id := Over];
        ReleasePermit();
      } else {
        stages := stages[id := Releasing];
      }
    }

    /** The deferred release gets the lock. */
    method FinishDrop(id: nat)
      requires SeqNosDiffer(waiters) && Can(View(), FinishesDrop(id))
      modifies this
      ensures View() == Next(old(View()), max, FinishesDrop(id))
    {
      tracked := tracked - {id};
      stages := stages[id := Over];
      ReleasePermit();
    }
  }

  lemma ShorterIsSmaller(part: set<Waiter>, whole: set<Waiter>)
    requires part <= whole
    ensures |part| < |whole| <==> part != whole
  {
    if part != whole {
      var w :| w in whole && w !in part;
      assert part <= whole - {w};
      SubsetCount(part, whole - {w});
    }
  }

  lemma {:induction false} SubsetCount(part: set<Waiter>, whole: set<Waiter>)
    requires part <= whole
    ensures |part| <= |whole|
    decreases |part|
  {
    if part != {} {
      var w :| w in part;
      SubsetCount(part - {w}, whole - {w});
    }
  }
}

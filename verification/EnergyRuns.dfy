/**
 Runs of the shared meter: requests start, end and are dropped in any order. What was measured while
 any of them was active is, to the joule, what their shares add up to.
 */
module EnergyRuns {
  import opened Text
  import opened EnergyMeter
  import opened EnergyLedger

  /** The shared state: the active requests, the next id, and the meter's last reading, held while any
      request is active. */
  datatype Meters = Meters(active: Active, nextId: nat, meter: Option<Reading>)

  /** What was drawn since the meter was last read. */
  function Measured(m: Machine, s: Meters, now: Reading, tdp: real): Drawn {
    match s.meter
    case None => NOTHING_DRAWN
    case Some(from) => DrawnIn(LapOf(m, from, now), tdp)
  }

  const NOTHING_DRAWN := Drawn(None, None, false)

  /** What was drawn is split, if the meter is open, and its next window starts at this reading. */
  ghost function Lapped(s: Meters, drawn: Drawn, now: Reading, work: nat -> nat): Meters {
    if s.meter.None? then s
    else s.(active := Sampled(s.active, drawn, work, s.nextId), meter := Some(now))
  }

  ghost function Opened(s: Meters, drawn: Drawn, now: Reading, work: nat -> nat, probed: bool): Meters {
    var l := Lapped(s, drawn, now, work);
    Meters(l.active[s.nextId := Entry(NO_SHARE, probed, if probed then work(s.nextId) else 0)], s.nextId + 1, Some(now))
  }

  function ShareIn(active: Active, id: nat): Share { if id in active then active[id].share else NO_SHARE }

  ghost function Closed(s: Meters, id: nat, drawn: Drawn, now: Reading, work: nat -> nat): (Meters, Share) {
    var l := Lapped(s, drawn, now, work);
    var rest := l.active - {id};
    (l.(active := rest, meter := if rest == map[] then None else l.meter), ShareIn(l.active, id))
  }

  class SharedMeter {
    const machine: Machine
    const ledger: Ledger
    var meter: Option<Meter>
    var nextId: nat

    ghost predicate Valid()
      reads this, ledger, if meter.Some? then {meter.value} else {}
    {
      && Below(ledger.active, nextId)
      && (meter.Some? ==> meter.value.machine == machine)
    }

    ghost function View(): Meters
      reads this, ledger, if meter.Some? then {meter.value} else {}
    {
      Meters(ledger.active, nextId, if meter.Some? then Some(meter.value.Last()) else None)
    }

    constructor (m: Machine)
      ensures Valid() && View() == Meters(map[], 0, None) && machine == m && fresh(ledger) && meter == None
    {
      machine := m;
      ledger := new Ledger();
      meter, nextId := None, 0;
    }

    /** Read the meter, if it is open, and split the sample. */
    method Lap(now: Reading, tdp: real, work: nat -> nat)
      requires Valid()
      modifies ledger, if meter.Some? then {meter.value} else {}
      ensures Valid() && View() == Lapped(old(View()), Measured(machine, old(View()), now, tdp), now, work)
    {
      if meter.Some? {
        var w := meter.value.Lap(now);
        ledger.Sample(w, tdp, work, nextId);
      }
    }

    /** A request starts being metered. */
    method Open(now: Reading, tdp: real, work: nat -> nat, probed: bool) returns (id: nat)
      requires Valid()
      modifies this`meter, this`nextId, ledger, if meter.Some? then {meter.value} else {}
      ensures Valid() && id == old(nextId)
      ensures View() == Opened(old(View()), Measured(machine, old(View()), now, tdp), now, work, probed)
      ensures meter == old(meter) || fresh(meter.value)
    {
      Lap(now, tdp, work);
      if meter.None? {
        var begun := new Meter(machine, now);
        meter := Some(begun);
      }
      id := nextId;
      nextId := nextId + 1;
      ledger.active := ledger.active[id := Entry(NO_SHARE, probed, if probed then work(id) else 0)];
    }

    /** A request ends, or is dropped: it leaves with its share, and the last one closes the meter. */
    method CloseEntry(id: nat, now: Reading, tdp: real, work: nat -> nat) returns (share: Share)
      requires Valid()
      modifies this`meter, ledger, if meter.Some? then {meter.value} else {}
      ensures Valid() && (View(), share) == Closed(old(View()), id, Measured(machine, old(View()), now, tdp), now, work)
      ensures meter == old(meter) || meter == None
    {
      Lap(now, tdp, work);
      share := ShareIn(ledger.active, id);
      ledger.active := ledger.active - {id};
      if ledger.active == map[] {
        meter := None;
      }
    }
  }
}

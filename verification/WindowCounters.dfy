/** Rolling counters: 60 slots, each tagged with the second or minute it counts.  The
    specification speaks of units, one second or one minute each. */
module WindowCounters {

  const SLOTS: nat := 60

  datatype Slot = Slot(unit: int, count: nat)

  function SlotOf(u: nat): (s: nat)
    ensures s < SLOTS
  {
    u % SLOTS
  }

  /** An event restarts its slot unless the slot already counts the same unit. */
  function Bump(slots: seq<Slot>, u: nat): seq<Slot>
    requires |slots| == SLOTS
  {
    var was := slots[SlotOf(u)];
    slots[SlotOf(u) := Slot(u, if was.unit == u then was.count + 1 else 1)]
  }

  /** Sum over the first n slots whose unit is younger than 60. */
  function Total(slots: seq<Slot>, now: int, n: nat): nat
    requires n <= |slots|
  {
    if n == 0 then 0 else Total(slots, now, n - 1) + if now - slots[n - 1].unit < SLOTS then slots[n - 1].count else 0
  }

  // ----- what the slots stand for -----

  function Occurs(units: seq<nat>, u: int): nat {
    if units == [] then 0 else Occurs(units[..|units| - 1], u) + if units[|units| - 1] == u then 1 else 0
  }

  /** How many of the events lie after from, counted directly. */
  function Later(units: seq<nat>, from: int): nat {
    if units == [] then 0 else Later(units[..|units| - 1], from) + if units[|units| - 1] > from then 1 else 0
  }

  /** The newest of the units, 0 for none. */
  function Newest(units: seq<nat>): nat {
    if units == [] then 0
    else
      var m, last := Newest(units[..|units| - 1]), units[|units| - 1];
      if last > m then last else m
  }

  lemma {:induction false} NewestBounds(units: seq<nat>, u: nat)
    requires u in units
    ensures u <= Newest(units)
  {
    var n := |units| - 1;
    if u != units[n] {
      assert u in units[..n];
      NewestBounds(units[..n], u);
    }
  }

  /** Each of the 60 units up to the newest has its exact count in its slot. */
  ghost predicate Exact(slots: seq<Slot>, units: seq<nat>)
    requires |slots| == SLOTS
  {
    forall u: nat | Newest(units) < u + SLOTS ::
      Occurs(units, u) == if slots[SlotOf(u)].unit == u then slots[SlotOf(u)].count else 0
  }

  /** Slots hold units of events that belong there, or nothing yet. */
  ghost predicate Proper(slots: seq<Slot>, units: seq<nat>)
    requires |slots| == SLOTS
  {
    forall i | 0 <= i < SLOTS ::
      slots[i] == Slot(0, 0) || (slots[i].count > 0 && slots[i].unit in units && SlotOf(slots[i].unit) == i)
  }

  lemma OccursSnoc(units: seq<nat>, v: nat, u: int)
    ensures Occurs(units + [v], u) == Occurs(units, u) + if u == v then 1 else 0
    ensures Later(units + [v], u) == Later(units, u) + if v > u then 1 else 0
  {
  }

  lemma {:induction false} OccursNone(units: seq<nat>, u: int)
    requires u !in units
    ensures Occurs(units, u) == 0
  {
    if units != [] {
      OccursNone(units[..|units| - 1], u);
    }
  }

  lemma {:induction false} OccursSome(units: seq<nat>, u: nat)
    requires u in units
    ensures Occurs(units, u) > 0
  {
    var n := |units| - 1;
    if units[n] != u {
      assert u in units[..n];
      OccursSome(units[..n], u);
    }
  }

  /** The guard of a safe update: the slot is not tagged with a later unit that is still in
      the window. */
  predicate Safe(slots: seq<Slot>, units: seq<nat>, u: nat)
    requires |slots| == SLOTS
  {
    slots[SlotOf(u)].unit <= u || slots[SlotOf(u)].unit + SLOTS <= Newest(units)
  }

  lemma BumpProper(slots: seq<Slot>, units: seq<nat>, u: nat)
    requires |slots| == SLOTS && Proper(slots, units)
    ensures Proper(Bump(slots, u), units + [u])
  {
  }

  /** Counters that are exact stay exact exactly for safe updates. */
  lemma BumpExactIff(slots: seq<Slot>, units: seq<nat>, u: nat)
    requires |slots| == SLOTS && Exact(slots, units) && Proper(slots, units)
    ensures Exact(Bump(slots, u), units + [u]) <==> Safe(slots, units, u)
  {
  }

  /** Events in time order are always safe. */
  lemma InOrderIsSafe(slots: seq<Slot>, units: seq<nat>, u: nat)
    requires |slots| == SLOTS && Proper(slots, units) && Newest(units) <= u
    ensures Safe(slots, units, u)
  {
    var slot := slots[SlotOf(u)];
    if slot != Slot(0, 0) {
      NewestBounds(units, slot.unit);
    }
  }

  /** The failing case: in fresh counters, an event followed by an earlier one of the same slot,
      such as unit 60 and then unit 0. */
  lemma LateEventLosesSlot(slots: seq<Slot>, late: nat, unit: nat)
    requires slots == seq(SLOTS, _ => Slot(0, 0)) && late < unit && SlotOf(late) == SlotOf(unit)
    ensures Exact(Bump(slots, unit), [unit]) && !Safe(Bump(slots, unit), [unit], late)
    ensures !Exact(Bump(Bump(slots, unit), late), [unit, late])
  {
    assert Exact(slots, []) && Proper(slots, []);
    BumpProper(slots, [], unit);
    BumpExactIff(slots, [], unit);
    assert [] + [unit] == [unit] && [unit] + [late] == [unit, late];
    BumpExactIff(Bump(slots, unit), [unit], late);
  }

  // ----- what the sum counts -----

  /** The unit of the 60 up to now that lives in slot i. */
  function InWindow(now: nat, i: nat): (u: int)
    requires i < SLOTS
    ensures now - SLOTS < u <= now && u % SLOTS == i
  {
    now - (now - i) % SLOTS
  }

  lemma OneUnitPerSlot(now: nat, i: nat, u: nat)
    requires i < SLOTS
    ensures InWindow(now, i) == u <==> now - SLOTS < u <= now && SlotOf(u) == i
  {
  }

  /** The same count slot by slot. */
  function Direct(units: seq<nat>, now: nat, n: nat): nat
    requires n <= SLOTS
  {
    if n == 0 then 0 else Direct(units, now, n - 1) + Occurs(units, InWindow(now, n - 1))
  }

  lemma {:induction false} DirectSnoc(units: seq<nat>, u: nat, now: nat, n: nat)
    requires n <= SLOTS
    ensures Direct(units + [u], now, n)
            == Direct(units, now, n) + if now - SLOTS < u <= now && SlotOf(u) < n then 1 else 0
  {
    hide InWindow, SlotOf;
    if n > 0 {
      DirectSnoc(units, u, now, n - 1);
      OccursSnoc(units, u, InWindow(now, n - 1));
      OneUnitPerSlot(now, n - 1, u);
    }
  }

  lemma {:induction false} DirectIsLater(units: seq<nat>, now: nat, n: nat)
    requires n == SLOTS && forall u | u in units :: u <= now
    ensures Direct(units, now, n) == Later(units, now - SLOTS)
  {
    if units == [] {
      DirectEmpty(now, n);
    } else {
      var k := |units| - 1;
      forall u | u in units[..k] ensures u in units {
      }
      DirectIsLater(units[..k], now, n);
      assert units == units[..k] + [units[k]] && units[k] in units;
      DirectSnoc(units[..k], units[k], now, n);
    }
  }

  lemma {:induction false} DirectEmpty(now: nat, n: nat)
    requires n <= SLOTS
    ensures Direct([], now, n) == 0
  {
    if n > 0 {
      DirectEmpty(now, n - 1);
    }
  }

  lemma {:induction false} TotalIsDirect(slots: seq<Slot>, units: seq<nat>, now: nat, n: nat)
    requires |slots| == SLOTS && Exact(slots, units) && Proper(slots, units) && Newest(units) <= now && n <= SLOTS
    ensures Total(slots, now, n) == Direct(units, now, n)
  {
    if n > 0 {
      TotalIsDirect(slots, units, now, n - 1);
      SlotIsDirect(slots, units, now, n - 1);
    }
  }

  lemma SlotIsDirect(slots: seq<Slot>, units: seq<nat>, now: nat, i: nat)
    requires |slots| == SLOTS && Exact(slots, units) && Proper(slots, units) && Newest(units) <= now && i < SLOTS
    ensures Occurs(units, InWindow(now, i)) == if now - slots[i].unit < SLOTS then slots[i].count else 0
  {
    var u, slot := InWindow(now, i), slots[i];
    if u < 0 {
      OccursNone(units, u);
    }
    if slot != Slot(0, 0) {
      NewestBounds(units, slot.unit);
      OneUnitPerSlot(now, i, slot.unit);
    }
  }

  /** Exact counters give exactly the events of the last 60 units. */
  lemma TotalExact(slots: seq<Slot>, units: seq<nat>, now: nat, n: nat)
    requires |slots| == n == SLOTS && Exact(slots, units) && Proper(slots, units) && Newest(units) <= now
    ensures Total(slots, now, n) == Later(units, now - SLOTS)
  {
    TotalIsDirect(slots, units, now, n);
    forall u | u in units ensures u <= now {
      NewestBounds(units, u);
    }
    DirectIsLater(units, now, n);
  }

  // ----- the counters -----

  /** Seconds for the per-minute counter, minutes for the per-hour one. */
  predicate Granularity(g: int) {
    g == 1 || g == 60
  }

  function UnitsOf(times: seq<nat>, g: int): (r: seq<nat>)
    requires Granularity(g)
  {
    seq(|times|, i requires 0 <= i < |times| => times[i] / g)
  }

  /** The events whose unit starts after now - 60 units, counted directly. */
  function Recent(times: seq<nat>, g: int, now: int): nat
    requires Granularity(g)
  {
    if times == [] then 0
    else Recent(times[..|times| - 1], g, now) + if times[|times| - 1] / g * g > now - SLOTS * g then 1 else 0
  }

  lemma {:induction false} RecentIsLater(times: seq<nat>, g: int, now: nat)
    requires Granularity(g)
    ensures Recent(times, g, now) == Later(UnitsOf(times, g), now / g - SLOTS)
  {
    if times != [] {
      var n := |times| - 1;
      RecentIsLater(times[..n], g, now);
      assert UnitsOf(times, g)[..n] == UnitsOf(times[..n], g);
    }
  }

  class Rolling {
    const g: int
    const tags: array<int>
    const counts: array<nat>

    /** The times of all events so far. */
    ghost var times: seq<nat>

    ghost predicate Valid()
      reads this, tags, counts
    {
      && Granularity(g) && tags.Length == counts.Length == SLOTS
      && (forall i | 0 <= i < SLOTS :: tags[i] % g == 0)
      && Proper(Slots(), UnitsOf(times, g))
    }

    ghost function Slots(): (s: seq<Slot>)
      requires Granularity(g) && tags.Length == counts.Length == SLOTS
      reads tags, counts
      ensures |s| == SLOTS
    {
      seq(SLOTS, i requires 0 <= i < SLOTS reads tags, counts => Slot(tags[i] / g, counts[i]))
    }

    ghost predicate Correct()
      requires Valid()
      reads this, tags, counts
    {
      Exact(Slots(), UnitsOf(times, g))
    }

    constructor (g: int)
      requires Granularity(g)
      ensures Valid() && Correct() && times == [] && this.g == g && fresh(tags) && fresh(counts)
    {
      this.g := g;
      tags := new int[SLOTS](_ => 0);
      counts := new nat[SLOTS](_ => 0);
      times := [];
    }

    method Record(time: nat)
      requires Valid()
      modifies tags, counts, `times
      ensures Valid() && times == old(times) + [time] && Slots() == Bump(old(Slots()), time / g)
      ensures old(Correct()) ==> (Correct() <==> Safe(old(Slots()), UnitsOf(old(times), g), time / g))
    {
      hide Exact, Proper, Safe, SlotOf;
      ghost var before, units := Slots(), UnitsOf(times, g);
      var start := time / g * g;
      var slot := time / g % SLOTS;
      assert slot == SlotOf(time / g) by { SlotIs(time / g); }
      TagOfUnit(time, tags[slot], g);
      if tags[slot] != start {
        tags[slot] := start;
        counts[slot] := 1;
      } else {
        counts[slot] := counts[slot] + 1;
      }
      times := times + [time];
      assert UnitsOf(times, g) == units + [time / g];
      assert Slots() == Bump(before, time / g);
      BumpProper(before, units, time / g);
      if Exact(before, units) {
        BumpExactIff(before, units, time / g);
      }
    }

    /** With correct counters, the rolling sum is the number of recent events. */
    method Sum(now: nat) returns (total: nat)
      requires Valid() && Correct() && forall t | t in times :: t <= now
      ensures total == Recent(times, g, now)
              == |set i | 0 <= i < |times| && times[i] / g * g > now - 60 * g|
    {
      hide Exact, Proper, Recent;
      total := 0;
      for i := 0 to SLOTS
        invariant total == Total(Slots(), now / g, i)
      {
        Younger(now, tags[i], g);
        if now - tags[i] < SLOTS * g {
          total := total + counts[i];
        }
      }
      forall u | u in UnitsOf(times, g) ensures u <= now / g {
        var i :| 0 <= i < |times| && UnitsOf(times, g)[i] == u;
        assert times[i] in times;
      }
      NewestWithin(UnitsOf(times, g), now / g);
      TotalExact(Slots(), UnitsOf(times, g), now / g, SLOTS);
      RecentIsLater(times, g, now);
      RecentIsCount(times, g, now);
    }
  }

  lemma {:induction false} RecentIsCount(times: seq<nat>, g: int, now: int)
    requires Granularity(g)
    ensures Recent(times, g, now) == |set i | 0 <= i < |times| && times[i] / g * g > now - 60 * g|
  {
    var recent := set i | 0 <= i < |times| && times[i] / g * g > now - 60 * g;
    if times != [] {
      var n := |times| - 1;
      RecentIsCount(times[..n], g, now);
      var before := set i | 0 <= i < |times[..n]| && times[..n][i] / g * g > now - 60 * g;
      assert recent == before + if times[n] / g * g > now - 60 * g then {n} else {};
    } else {
      assert recent == {};
    }
  }

  lemma SlotIs(u: nat)
    ensures SlotOf(u) == u % SLOTS
  {
  }

  lemma Younger(now: nat, tag: int, g: int)
    requires Granularity(g) && tag % g == 0
    ensures now - tag < SLOTS * g <==> now / g - tag / g < SLOTS
  {
  }

  lemma {:induction false} NewestWithin(units: seq<nat>, limit: nat)
    requires forall u | u in units :: u <= limit
    ensures Newest(units) <= limit
  {
    if units != [] {
      var n := |units| - 1;
      forall u | u in units[..n] ensures u in units {
      }
      assert units[n] in units;
      NewestWithin(units[..n], limit);
    }
  }

  /** Comparing tags is comparing units. */
  lemma TagOfUnit(time: nat, tag: int, g: int)
    requires Granularity(g) && tag % g == 0
    ensures (time / g * g) / g == time / g && (time / g * g) % g == 0
    ensures tag == time / g * g <==> tag / g == time / g
  {
  }
}
